/** Execution: a row of DB2 is fetched into the result columns and converted into the tuple's slot. The
    k-th attribute of the slot gets the k-th item of the SELECT list. */
module TupleSlot {
  import opened Nodes

  /** A result column at run time: its layout, its number, whether its type is fetched with SQLGetData (DECIMAL,
      NUMERIC, DECFLOAT) instead of being bound, and whether there is somewhere to put a value. */
  datatype Col<T> = Col(info: T, resnum: int, unbound: bool, buffered: bool)

  /** Different numbers, all of them columns of the row. */
  ghost predicate Numbered<T>(cols: seq<Col<T>>, n: nat) {
    && (forall i | 0 <= i < |cols| :: 1 <= cols[i].resnum <= n)
    && (forall i, j | 0 <= i < j < |cols| :: cols[i].resnum != cols[j].resnum)
  }

  ghost predicate Ascending(calls: seq<nat>) {
    forall i, j | 0 <= i < j < |calls| :: calls[i] < calls[j]
  }

  /** The driver fills the bound columns. */
  method FetchBound<T>(cols: seq<Col<T>>, row: seq<Option<string>>, vals: array<Option<string>>)
    requires Numbered(cols, |row|) && vals.Length == |cols|
    modifies vals
    ensures forall k | 0 <= k < |cols| && !cols[k].unbound :: vals[k] == row[cols[k].resnum - 1]
  {
    for i := 0 to |cols|
      invariant forall k | 0 <= k < i && !cols[k].unbound :: vals[k] == row[cols[k].resnum - 1]
    {
      if !cols[i].unbound {
        vals[i] := row[cols[i].resnum - 1];
      }
    }
  }

  /** The first column with a number, or the end of the list. */
  method FindColumn<T>(cols: seq<Col<T>>, resnum: nat) returns (k: nat)
    ensures k <= |cols| && (k < |cols| ==> cols[k].resnum == resnum)
    ensures forall j | 0 <= j < k :: cols[j].resnum != resnum
  {
    k := 0;
    while k < |cols| && cols[k].resnum != resnum
      invariant k <= |cols|
      invariant forall j | 0 <= j < k :: cols[j].resnum != resnum
    {
      k := k + 1;
    }
  }

  method MaxResnum<T>(cols: seq<Col<T>>) returns (max: nat)
    ensures forall k | 0 <= k < |cols| :: cols[k].resnum <= max
    ensures max == 0 || exists k :: 0 <= k < |cols| && cols[k].resnum == max
  {
    max := 0;
    for i := 0 to |cols|
      invariant forall k | 0 <= k < i :: cols[k].resnum <= max
      invariant max == 0 || exists k :: 0 <= k < i && cols[k].resnum == max
    {
      if cols[i].resnum > max {
        max := cols[i].resnum;
      }
    }
  }

  /** The number belongs to an unbound column. */
  ghost predicate IsUnbound<T>(cols: seq<Col<T>>, n: nat) {
    exists k :: 0 <= k < |cols| && cols[k].resnum == n && cols[k].unbound
  }

  lemma AscendingSnoc(calls: seq<nat>, n: nat)
    requires Ascending(calls) && forall m | m in calls :: m < n
    ensures Ascending(calls + [n])
  {
    forall i, j | 0 <= i < j < |calls| + 1 ensures (calls + [n])[i] < (calls + [n])[j] {
      if j == |calls| {
        assert calls[i] in calls;
      }
    }
  }

  /** `db2FetchNext`: every column gets the value with its number, and SQLGetData is called for exactly
      the unbound columns, in strictly ascending order, whatever the order of the list. */
  method FetchNext<T>(cols: seq<Col<T>>, row: seq<Option<string>>, vals: array<Option<string>>) returns (calls: seq<nat>)
    requires Numbered(cols, |row|) && vals.Length == |cols|
    modifies vals
    ensures forall k | 0 <= k < |cols| :: vals[k] == row[cols[k].resnum - 1]
    ensures Ascending(calls)
    ensures forall n: nat :: n in calls <==> IsUnbound(cols, n)
  {
    FetchBound(cols, row, vals);
    var max := MaxResnum(cols);
    calls := [];
    var i := 1;
    while i <= max
      invariant 1 <= i <= max + 1
      invariant Ascending(calls)
      invariant forall k | 0 <= k < |cols| && (!cols[k].unbound || cols[k].resnum < i) :: vals[k] == row[cols[k].resnum - 1]
      invariant forall n: nat :: n in calls <==> n < i && IsUnbound(cols, n)
    {
      var k := FindColumn(cols, i);
      if k < |cols| && cols[k].unbound {
        vals[k] := row[i - 1];
        AscendingSnoc(calls, i);
        calls := calls + [i];
        assert IsUnbound(cols, i);
      } else {
        assert !IsUnbound(cols, i);
      }
      i := i + 1;
    }
  }

  // ----- convertTuple

  /** What the slot gets for a value: the value converted by the column's own layout. */
  function Convert<T, D>(info: T, text: Option<string>, conv: (T, string) -> D): Option<D> {
    if text.Some? then Some(conv(info, text.value)) else None
  }

  /** The column with the number of the j-th attribute, if any. */
  function FillerOf<T>(cols: seq<Col<T>>, j: nat): (k: nat)
    ensures k <= |cols| && (k < |cols| ==> cols[k].resnum == j + 1)
    ensures forall i | 0 <= i < k :: cols[i].resnum != j + 1
  {
    if cols == [] || cols[0].resnum == j + 1 then 0 else 1 + FillerOf(cols[1..], j)
  }

  /** What the slot holds after the conversion. */
  function SlotOf<T, D>(cols: seq<Col<T>>, vals: seq<Option<string>>, conv: (T, string) -> D, j: nat): Option<D>
    requires |vals| == |cols|
  {
    var k := FillerOf(cols, j);
    if k < |cols| then Convert(cols[k].info, vals[k], conv) else None
  }

  /** `convertTuple` in result mode. A column whose number is no attribute of the slot is an error, and so is a value
      that had no buffer. */
  method ConvertTuple<T, D>(cols: seq<Col<T>>, vals: seq<Option<string>>, conv: (T, string) -> D, slot: array<Option<D>>)
    returns (ok: bool)
    requires |vals| == |cols|
    requires forall i, j | 0 <= i < j < |cols| :: cols[i].resnum != cols[j].resnum
    modifies slot
    ensures ok <==> forall k | 0 <= k < |cols| :: 1 <= cols[k].resnum <= slot.Length && (vals[k].Some? ==> cols[k].buffered)
    ensures ok ==> forall j | 0 <= j < slot.Length :: slot[j] == SlotOf(cols, vals, conv, j)
  {
    for j := 0 to slot.Length
      invariant forall k | 0 <= k < j :: slot[k] == None
    {
      slot[j] := None;
    }
    for i := 0 to |cols|
      invariant forall k | 0 <= k < i :: 1 <= cols[k].resnum <= slot.Length && (vals[k].Some? ==> cols[k].buffered)
      invariant forall j | 0 <= j < slot.Length ::
        slot[j] == if FillerOf(cols, j) < i then SlotOf(cols, vals, conv, j) else None
    {
      var j := cols[i].resnum - 1;
      if j < 0 || j >= slot.Length {
        return false;
      }
      if vals[i].Some? && !cols[i].buffered {
        return false;
      }
      slot[j] := Convert(cols[i].info, vals[i], conv);
      forall k | 0 <= k < slot.Length
        ensures FillerOf(cols, k) == i <==> k == j
      {
      }
    }
    ok := true;
  }
}
