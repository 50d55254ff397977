/** The result list of a plan: a linked list of result columns, built from the target list in one of
    two ways. */
module ResultColumns {
  import opened Sequences

  /** A result column: its layout and the position of its value in DB2's row, counted from 1. */
  datatype Layout<T> = Layout(info: T, resnum: int)

  // ----- the linked list

  class ResCol<T> {
    const info: T
    const resnum: int
    var next: ResCol?<T>

    constructor (info: T, resnum: int, next: ResCol?<T>)
      ensures this.info == info && this.resnum == resnum && this.next == next
    {
      this.info, this.resnum, this.next := info, resnum, next;
    }
  }

  function Reversed<T>(s: seq<T>): (r: seq<T>)
    ensures |r| == |s|
  {
    if s == [] then [] else Reversed(s[1..]) + [s[0]]
  }

  lemma {:induction false} ReversedAt<T>(s: seq<T>, i: nat)
    requires i < |s|
    ensures Reversed(s)[i] == s[|s| - 1 - i]
  {
    if i < |s| - 1 {
      ReversedAt(s[1..], i);
    }
  }

  lemma {:induction false} ReversedSnoc<T>(s: seq<T>, x: T)
    ensures Reversed(s + [x]) == [x] + Reversed(s)
  {
    if s == [] {
      assert s + [x] == [x];
    } else {
      assert (s + [x])[1..] == s[1..] + [x];
      ReversedSnoc(s[1..], x);
    }
  }

  lemma {:induction false} TwiceReversed<T>(s: seq<T>)
    ensures Reversed(Reversed(s)) == s
  {
    if s != [] {
      TwiceReversed(s[1..]);
      ReversedSnoc(Reversed(s[1..]), s[0]);
    }
  }

  ghost function After<T>(cols: seq<ResCol<T>>, i: int): ResCol?<T>
    requires -1 <= i < |cols|
  {
    if i + 1 < |cols| then cols[i + 1] else null
  }

  ghost function Before<T>(cols: seq<ResCol<T>>, i: nat): ResCol?<T>
    requires i <= |cols|
  {
    if i > 0 then cols[i - 1] else null
  }

  lemma TurnedRound<T>(cols: seq<ResCol<T>>, k: nat)
    requires k < |cols|
    ensures Reversed(cols)[k] == cols[|cols| - 1 - k]
    ensures After(Reversed(cols), k) == Before(cols, |cols| - 1 - k)
  {
    hide Reversed;
    ReversedAt(cols, k);
    if k + 1 < |cols| {
      ReversedAt(cols, k + 1);
    }
  }

  ghost function Layouts<T>(cols: seq<ResCol<T>>): (r: seq<Layout<T>>)
    ensures |r| == |cols|
  {
    if cols == [] then [] else [Layout(cols[0].info, cols[0].resnum)] + Layouts(cols[1..])
  }

  lemma {:induction false} LayoutsOfMore<T>(cols: seq<ResCol<T>>, col: ResCol<T>)
    ensures Layouts(cols + [col]) == Layouts(cols) + [Layout(col.info, col.resnum)]
  {
    if cols == [] {
      assert cols + [col] == [col];
    } else {
      assert (cols + [col])[1..] == cols[1..] + [col];
      LayoutsOfMore(cols[1..], col);
    }
  }

  lemma {:induction false} BackwardLayouts<T>(cols: seq<ResCol<T>>)
    ensures Layouts(Reversed(cols)) == Reversed(Layouts(cols))
  {
    if cols != [] {
      BackwardLayouts(cols[1..]);
      LayoutsOfMore(Reversed(cols[1..]), cols[0]);
    }
  }

  /** `fpinfo->resultList`. */
  class ResultList<T> {
    var head: ResCol?<T>
    ghost var cols: seq<ResCol<T>>
    ghost var repr: set<ResCol<T>>

    constructor ()
      ensures Valid() && cols == [] && repr == {}
    {
      head, cols, repr := null, [], {};
    }

    ghost predicate Valid()
      reads this, repr
    {
      && (forall i | 0 <= i < |cols| :: cols[i] in repr)
      && head == After(cols, -1)
      && (forall i | 0 <= i < |cols| :: cols[i].next == After(cols, i))
      && (forall i, j | 0 <= i < j < |cols| :: cols[i] != cols[j])
    }

    ghost function Contents(): (r: seq<Layout<T>>)
      reads this`cols
    {
      Layouts(cols)
    }

    /** A new column in front. */
    method Prepend(info: T, resnum: int)
      requires Valid()
      modifies this
      ensures Valid() && fresh(repr - old(repr))
      ensures Contents() == [Layout(info, resnum)] + old(Contents())
    {
      var col := new ResCol<T>(info, resnum, head);
      ghost var before := cols;
      head, cols, repr := col, [col] + cols, repr + {col};
      assert cols[1..] == before;
      forall i | 0 <= i < |cols| ensures cols[i].next == After(cols, i) {
        if i > 0 {
          assert before[i - 1].next == After(before, i - 1);
        }
      }
    }

    /** A new column behind the last one. */
    method Append(info: T, resnum: int, tail: ResCol?<T>) returns (col: ResCol<T>)
      requires Valid() && (cols != [] ==> tail == cols[|cols| - 1])
      modifies this, repr
      ensures Valid() && fresh(repr - old(repr))
      ensures Contents() == old(Contents()) + [Layout(info, resnum)]
      ensures cols == old(cols) + [col]
    {
      col := new ResCol<T>(info, resnum, null);
      ghost var before := cols;
      if head == null {
        head := col;
      } else {
        tail.next := col;
      }
      cols, repr := before + [col], repr + {col};
      forall i | 0 <= i < |cols| ensures cols[i].next == After(cols, i) {
        if i < |before| - 1 {
          assert old(before[i].next) == After(before, i) && before[i] != tail;
        }
      }
      LayoutsOfMore(before, col);
    }

    /** The loop of the join branch that turns the list round. */
    method Reverse()
      requires Valid()
      modifies this, repr
      ensures Valid() && repr == old(repr)
      ensures Contents() == Reversed(old(Contents()))
    {
      var prev: ResCol?<T> := null;
      var cur := head;
      ghost var i := 0;
      while cur != null
        invariant 0 <= i <= |cols| && cols == old(cols) && repr == old(repr)
        invariant cur == After(cols, i - 1)
        invariant prev == Before(cols, i)
        invariant forall k | i <= k < |cols| :: cols[k].next == After(cols, k)
        invariant forall k | 0 <= k < i :: cols[k].next == Before(cols, k)
        decreases |cols| - i
      {
        var next := cur.next;
        cur.next := prev;
        prev := cur;
        cur := next;
        i := i + 1;
      }
      head := prev;
      BackwardLayouts(cols);
      TurnRound();
    }

    /** All links point backwards, so the columns come in the other order. */
    ghost method TurnRound()
      requires head == Before(cols, |cols|)
      requires forall i | 0 <= i < |cols| :: cols[i] in repr
      requires forall k | 0 <= k < |cols| :: cols[k].next == Before(cols, k)
      requires forall i, j | 0 <= i < j < |cols| :: cols[i] != cols[j]
      modifies this`cols
      ensures Valid() && cols == Reversed(old(cols))
    {
      hide Reversed;
      ghost var before := cols;
      cols := Reversed(before);
      if before != [] {
        ReversedAt(before, 0);
      }
      forall k | 0 <= k < |cols| ensures cols[k] in repr && cols[k].next == After(cols, k) {
        TurnedRound(before, k);
      }
      forall i, j | 0 <= i < j < |cols| ensures cols[i] != cols[j] {
        ReversedAt(before, i);
        ReversedAt(before, j);
      }
    }
  }

  // ----- building the list

  /** An entry of the target list: whether it is a bare column, whether `getUsedColumns` found a column of
      the table for it, and that column's number and layout. */
  datatype Entry<T> = Entry(plainVar: bool, found: bool, pgattnum: int, info: T)

  /** Entries of a base relation that get no result column: those without a column, those behind the
      last column of the table, and bare columns that came before. */
  predicate Kept<T>(e: Entry<T>, npgcols: int, seen: set<int>) {
    e.found && e.pgattnum <= npgcols && !(e.plainVar && e.pgattnum in seen)
  }

  function SeenAfter<T>(e: Entry<T>, npgcols: int, seen: set<int>): set<int> {
    if e.plainVar && e.found && e.pgattnum <= npgcols then seen + {e.pgattnum} else seen
  }

  /** The result columns of a base relation: a skipped entry does not use up a number. */
  function BaseColumns<T>(es: seq<Entry<T>>, npgcols: int, seen: set<int>, resnum: nat): seq<Layout<T>> {
    if es == [] then []
    else
      var seen' := SeenAfter(es[0], npgcols, seen);
      if Kept(es[0], npgcols, seen) then [Layout(es[0].info, resnum + 1)] + BaseColumns(es[1..], npgcols, seen', resnum + 1)
      else BaseColumns(es[1..], npgcols, seen', resnum)
  }

  lemma BaseStep<T>(es: seq<Entry<T>>, i: nat, npgcols: int, seen: set<int>, resnum: nat)
    requires i < |es|
    ensures var seen' := SeenAfter(es[i], npgcols, seen);
      BaseColumns(es[i..], npgcols, seen, resnum)
        == if Kept(es[i], npgcols, seen)
           then [Layout(es[i].info, resnum + 1)] + BaseColumns(es[i + 1..], npgcols, seen', resnum + 1)
           else BaseColumns(es[i + 1..], npgcols, seen', resnum)
  {
    assert es[i..][1..] == es[i + 1..];
  }

  lemma BaseEnd<T>(npgcols: int, seen: set<int>, resnum: nat)
    ensures BaseColumns<T>([], npgcols, seen, resnum) == []
  {
  }

  /** Whether an entry gets a column; only a bare column is looked up among those seen, and only a bare
      column is remembered. */
  method Examine<T>(e: Entry<T>, npgcols: int, seen: set<int>) returns (keep: bool, seen': set<int>)
    ensures keep == Kept(e, npgcols, seen) && seen' == SeenAfter(e, npgcols, seen)
  {
    keep, seen' := false, seen;
    if e.found && e.pgattnum <= npgcols {
      var dup := false;
      if e.plainVar {
        if e.pgattnum in seen {
          dup := true;
          assert seen + {e.pgattnum} == seen;
        } else {
          seen' := seen + {e.pgattnum};
        }
      }
      keep := !dup;
    }
  }

  /** The branch for base relations, which appends at the tail. */
  method BuildBase<T>(es: seq<Entry<T>>, npgcols: int) returns (list: ResultList<T>)
    ensures fresh(list) && fresh(list.repr) && list.Valid()
    ensures list.Contents() == BaseColumns(es, npgcols, {}, 0)
  {
    list := new ResultList<T>();
    var tail: ResCol?<T> := null;
    var seen: set<int> := {};
    var resnum := 0;
    var i := 0;
    assert list.Contents() == [];
    hide *;
    while i < |es|
      invariant 0 <= i <= |es|
      invariant fresh(list) && fresh(list.repr) && list.Valid()
      invariant list.cols != [] ==> tail == list.cols[|list.cols| - 1]
      invariant list.Contents() + BaseColumns(es[i..], npgcols, seen, resnum) == BaseColumns(es, npgcols, {}, 0)
    {
      BaseStep(es, i, npgcols, seen, resnum);
      ghost var before := list.Contents();
      var e := es[i];
      var keep;
      keep, seen := Examine(e, npgcols, seen);
      if keep {
        resnum := resnum + 1;
        tail := list.Append(e.info, resnum, tail);
        Regroup(before, [Layout(e.info, resnum)], BaseColumns(es[i + 1..], npgcols, seen, resnum));
      }
      i := i + 1;
    }
    assert es[i..] == [];
    BaseEnd<T>(npgcols, seen, resnum);
  }

  /** An entry without a column of the table, a constant for example, keeps the blank layout. */
  function UpperInfo<T>(e: Entry<T>, blank: T): T {
    if e.found then e.info else blank
  }

  /** The result columns of a join or upper relation: one for every entry. */
  function UpperColumns<T>(es: seq<Entry<T>>, blank: T, resnum: nat): (r: seq<Layout<T>>)
    ensures |r| == |es|
  {
    if es == [] then [] else [Layout(UpperInfo(es[0], blank), resnum)] + UpperColumns(es[1..], blank, resnum + 1)
  }

  lemma {:induction false} UpperAt<T>(es: seq<Entry<T>>, blank: T, resnum: nat, i: nat)
    requires i < |es|
    ensures UpperColumns(es, blank, resnum)[i] == Layout(UpperInfo(es[i], blank), resnum + i)
  {
    if i > 0 {
      UpperAt(es[1..], blank, resnum + 1, i - 1);
    }
  }

  lemma {:induction false} UpperSnoc<T>(es: seq<Entry<T>>, e: Entry<T>, blank: T, resnum: nat)
    ensures UpperColumns(es + [e], blank, resnum)
         == UpperColumns(es, blank, resnum) + [Layout(UpperInfo(e, blank), resnum + |es|)]
  {
    if es == [] {
      assert es + [e] == [e];
    } else {
      assert (es + [e])[1..] == es[1..] + [e];
      UpperSnoc(es[1..], e, blank, resnum + 1);
    }
  }

  /** The branch for joins and upper relations, which prepends and then turns the list round. */
  method BuildUpper<T>(es: seq<Entry<T>>, blank: T) returns (list: ResultList<T>)
    ensures fresh(list) && fresh(list.repr) && list.Valid()
    ensures list.Contents() == UpperColumns(es, blank, 1)
  {
    list := new ResultList<T>();
    var i := 0;
    assert es[..0] == [] && Reversed(UpperColumns<T>([], blank, 1)) == [] == list.Contents();
    hide *;
    while i < |es|
      invariant 0 <= i <= |es|
      invariant fresh(list) && fresh(list.repr) && list.Valid()
      invariant list.Contents() == Reversed(UpperColumns(es[..i], blank, 1))
    {
      var info := UpperInfo(es[i], blank);
      list.Prepend(info, i + 1);
      UpperStep(es, blank, i);
      i := i + 1;
    }
    assert es[..i] == es;
    list.Reverse();
    TwiceReversed(UpperColumns(es, blank, 1));
  }

  lemma UpperStep<T>(es: seq<Entry<T>>, blank: T, i: nat)
    requires i < |es|
    ensures Reversed(UpperColumns(es[..i + 1], blank, 1))
         == [Layout(UpperInfo(es[i], blank), i + 1)] + Reversed(UpperColumns(es[..i], blank, 1))
  {
    assert es[..i + 1] == es[..i] + [es[i]];
    UpperSnoc(es[..i], es[i], blank, 1);
    ReversedSnoc(UpperColumns(es[..i], blank, 1), Layout(UpperInfo(es[i], blank), i + 1));
  }
}
