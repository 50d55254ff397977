/** `db2IterateForeignScan`, `db2ReScanForeignScan` and `db2CloseStatement`: one scan whose statement
    shares the connection's handle list with savepoint statements. */
module ForeignScan {
  import opened Nodes
  import opened Handles

  /** What may happen while the scan runs. `Next` carries the rows DB2 answers with if the query is
      executed at that point. */
  datatype Action<+R> = Next(answer: seq<R>) | Rescan | Statement

  /** The scan on its own: no statement, or a result and how many of its rows were returned. */
  datatype Cursor<+R> = Closed | Open(rows: seq<R>, pos: nat)

  function NextRow<R>(c: Cursor<R>, answer: seq<R>): (Cursor<R>, Option<R>) {
    var rows := if c.Open? then c.rows else answer;
    var pos := if c.Open? then c.pos else 0;
    if pos < |rows| then (Open(rows, pos + 1), Some(rows[pos])) else (Closed, None)
  }

  function CursorAfter<R>(c: Cursor<R>, a: Action<R>): Cursor<R> {
    match a
    case Next(answer) => NextRow(c, answer).0
    case Rescan => Closed
    case Statement => c
  }

  function Output<R>(c: Cursor<R>, a: Action<R>): seq<Option<R>> {
    if a.Next? then [NextRow(c, a.answer).1] else []
  }

  function Init<T>(xs: seq<T>): seq<T>
    requires xs != []
  {
    xs[..|xs| - 1]
  }

  function Last<T>(xs: seq<T>): T
    requires xs != []
  {
    xs[|xs| - 1]
  }

  function CursorAfterAll<R>(c: Cursor<R>, actions: seq<Action<R>>): Cursor<R>
    decreases |actions|
  {
    if actions == [] then c else CursorAfter(CursorAfterAll(c, Init(actions)), Last(actions))
  }

  /** What the `Next` actions return. */
  function Outputs<R>(c: Cursor<R>, actions: seq<Action<R>>): seq<Option<R>>
    decreases |actions|
  {
    if actions == [] then []
    else Outputs(c, Init(actions)) + Output(CursorAfterAll(c, Init(actions)), Last(actions))
  }

  // ----- what an observer sees

  datatype Event<+R> = Returned(row: R) | Exhausted | Rescanned | Elsewhere

  function EventOf<R>(c: Cursor<R>, a: Action<R>): Event<R> {
    match a
    case Next(answer) =>
      var row := NextRow(c, answer).1;
      if row.Some? then Returned(row.value) else Exhausted
    case Rescan => Rescanned
    case Statement => Elsewhere
  }

  function Trace<R>(c: Cursor<R>, actions: seq<Action<R>>): seq<Event<R>>
    decreases |actions|
  {
    if actions == [] then []
    else Trace(c, Init(actions)) + [EventOf(CursorAfterAll(c, Init(actions)), Last(actions))]
  }

  /** The last action of the scan returned a row. */
  predicate LastReturned<R>(t: seq<Event<R>>)
    decreases |t|
  {
    t != [] && (Last(t).Returned? || (Last(t).Elsewhere? && LastReturned(Init(t))))
  }

  /** The rows returned since the query was executed. */
  function Recent<R>(t: seq<Event<R>>): seq<R>
    decreases |t|
  {
    if t == [] || Last(t).Exhausted? || Last(t).Rescanned? then []
    else Recent(Init(t)) + if Last(t).Returned? then [Last(t).row] else []
  }

  /** The number of rows returned since the last rescan, or since the beginning, where it was `start`. */
  function RowsSinceRescan<R>(start: nat, t: seq<Event<R>>): nat
    decreases |t|
  {
    if t == [] then start
    else if Last(t).Rescanned? then 0
    else RowsSinceRescan(start, Init(t)) + if Last(t).Returned? then 1 else 0
  }

  /** What DB2 answered when the query was executed last: at the first `Next` after the beginning, after a rescan, or
      after the last row. */
  function Asked<R>(actions: seq<Action<R>>): seq<R>
    decreases |actions|
  {
    if actions == [] then []
    else
      match Last(actions)
      case Next(answer) => if LastReturned(Trace(Closed, Init(actions))) then Asked(Init(actions)) else answer
      case Rescan => []
      case Statement => Asked(Init(actions))
  }

  lemma Extend<R>(c: Cursor<R>, actions: seq<Action<R>>, i: nat)
    requires i < |actions|
    ensures var before := CursorAfterAll(c, actions[..i]);
      && CursorAfterAll(c, actions[..i + 1]) == CursorAfter(before, actions[i])
      && Outputs(c, actions[..i + 1]) == Outputs(c, actions[..i]) + Output(before, actions[i])
      && Trace(c, actions[..i + 1]) == Trace(c, actions[..i]) + [EventOf(before, actions[i])]
  {
    assert Init(actions[..i + 1]) == actions[..i];
  }

  lemma CountExtends<R>(start: nat, t: seq<Event<R>>, e: Event<R>)
    ensures RowsSinceRescan(start, t + [e])
         == if e.Rescanned? then 0 else RowsSinceRescan(start, t) + if e.Returned? then 1 else 0
  {
    assert Init(t + [e]) == t;
  }

  class Scan<R> {
    const handles: HandleList
    /** The statement of the session. */
    var stmtp: HdlEntry?
    /** The rows of the open statement, and how many of them were fetched. */
    var rows: seq<R>
    var fetched: nat
    /** Rows returned since the last rescan. */
    var rowcount: nat

    constructor ()
      ensures Valid() && fresh(handles) && handles.entries == [] && Cursor() == Closed && rowcount == 0
    {
      handles := new HandleList();
      stmtp, rows, fetched, rowcount := null, [], 0, 0;
    }

    /** The statement is the only handle of the connection, and it is open only while rows come. */
    ghost predicate Valid()
      reads this, handles, handles.repr
    {
      && handles.Valid()
      && handles.entries == (if stmtp == null then [] else [stmtp])
      && (stmtp != null ==> 0 < fetched <= |rows|)
    }

    ghost function Cursor(): Cursor<R>
      reads this
    {
      if stmtp == null then Closed else Open(rows, fetched)
    }

    /** `db2CloseStatement`. */
    method CloseStatement()
      requires handles.Valid() && handles.entries == if stmtp == null then [] else [stmtp]
      modifies this`stmtp, handles, handles.repr
      ensures stmtp == null && handles.Valid() && handles.repr == old(handles.repr) && handles.entries == []
    {
      if stmtp != null {
        handles.FreeStmtHdl(stmtp, 0);
        stmtp := null;
      }
    }

    /** `db2IterateForeignScan`: fetch the next row, executing the query first if no statement is open;
        an error leaves the scan as it was. */
    method Iterate(answer: seq<R>) returns (ok: bool, row: Option<R>)
      requires Valid()
      modifies this, handles, handles.repr
      ensures Valid() && fresh(handles.repr - old(handles.repr))
      ensures ok ==> (Cursor(), row) == NextRow(old(Cursor()), answer)
      ensures ok ==> rowcount == old(rowcount) + if row.Some? then 1 else 0
      ensures !ok ==> Cursor() == old(Cursor()) && row == None && rowcount == old(rowcount)
    {
      ok, row := true, None;
      if stmtp == null {
        var entry := handles.AllocStmtHdl();
        if entry == null {
          return false, None;
        }
        stmtp, rows, fetched := entry, answer, 0;
      }
      if fetched < |rows| {
        row := Some(rows[fetched]);
        fetched := fetched + 1;
        rowcount := rowcount + 1;
      } else {
        CloseStatement();
      }
    }

    /** `db2ReScanForeignScan`. */
    method Restart()
      requires Valid()
      modifies this, handles, handles.repr
      ensures Valid() && handles.repr == old(handles.repr) && Cursor() == Closed && rowcount == 0
    {
      CloseStatement();
      rowcount := 0;
    }

    /** A savepoint or rollback statement on the same connection. */
    method OtherStatement() returns (ok: bool)
      requires Valid()
      modifies handles, handles.repr
      ensures fresh(handles.repr - old(handles.repr))
      ensures ok ==> Valid() && handles.entries == old(handles.entries)
    {
      ok := handles.RunStatement();
    }

    method Do(a: Action<R>) returns (ok: bool, output: seq<Option<R>>)
      requires Valid()
      modifies this, handles, handles.repr
      ensures fresh(handles.repr - old(handles.repr))
      ensures ok ==> Valid() && Cursor() == CursorAfter(old(Cursor()), a)
      ensures ok ==> output == Output(old(Cursor()), a)
      ensures ok ==> rowcount == if a.Rescan? then 0 else old(rowcount) + if EventOf(old(Cursor()), a).Returned? then 1 else 0
    {
      ok, output := true, [];
      match a
      case Next(answer) =>
        var row;
        ok, row := Iterate(answer);
        output := [row];
      case Rescan => Restart();
      case Statement => ok := OtherStatement();
    }

    /** Any interleaving, up to the first error. */
    method Run(actions: seq<Action<R>>) returns (ok: bool, outputs: seq<Option<R>>)
      requires Valid()
      modifies this, handles, handles.repr
      ensures ok ==> Valid() && outputs == Outputs(old(Cursor()), actions)
      ensures ok ==> Cursor() == CursorAfterAll(old(Cursor()), actions)
      ensures ok ==> rowcount == RowsSinceRescan(old(rowcount), Trace(old(Cursor()), actions))
      ensures ok && old(stmtp) == null ==> (stmtp != null <==> LastReturned(Trace(Closed, actions)))
    {
      hide HandleList.Valid;
      ok, outputs := true, [];
      ghost var start, count := Cursor(), rowcount;
      for i := 0 to |actions|
        invariant Valid() && fresh(handles.repr - old(handles.repr))
        invariant ok && outputs == Outputs(start, actions[..i])
        invariant Cursor() == CursorAfterAll(start, actions[..i])
        invariant rowcount == RowsSinceRescan(count, Trace(start, actions[..i]))
      {
        Extend(start, actions, i);
        CountExtends(count, Trace(start, actions[..i]), EventOf(Cursor(), actions[i]));
        var output;
        ok, output := Do(actions[i]);
        if !ok {
          return;
        }
        outputs := outputs + output;
      }
      assert actions[..|actions|] == actions;
      ScanReturnsPrefix(actions);
    }
  }

  // ----- what the scan promises

  /** For every run from the beginning: a statement is open exactly when the last action of the scan returned a row, and
      then the rows since the execution are the first rows of DB2's answer, in order. */
  lemma {:induction false} ScanReturnsPrefix<R>(actions: seq<Action<R>>)
    ensures var t, c := Trace(Closed, actions), CursorAfterAll(Closed, actions);
      && c == (if LastReturned(t) then Open(Asked(actions), |Recent(t)|) else Closed)
      && |Recent(t)| <= |Asked(actions)|
      && Recent(t) == Asked(actions)[..|Recent(t)|]
      && (LastReturned(t) <==> Recent(t) != [])
    decreases |actions|
  {
    if actions != [] {
      var before := Init(actions);
      ScanReturnsPrefix(before);
      var u, c := Trace(Closed, before), CursorAfterAll(Closed, before);
      var e := EventOf(c, Last(actions));
      OneMoreEvent(u, e);
      assert Trace(Closed, actions) == u + [e];
      if e.Returned? {
        var rows := Asked(actions);
        assert rows[..|Recent(u)| + 1] == rows[..|Recent(u)|] + [rows[|Recent(u)|]];
      }
    }
  }

  lemma OneMoreEvent<R>(t: seq<Event<R>>, e: Event<R>)
    ensures LastReturned(t + [e]) <==> e.Returned? || (e.Elsewhere? && LastReturned(t))
    ensures Recent(t + [e]) == if e.Exhausted? || e.Rescanned? then [] else Recent(t) + if e.Returned? then [e.row] else []
  {
    assert Init(t + [e]) == t && Last(t + [e]) == e;
  }

  /** No row is lost: when a call returns none, the rows returned since the execution are DB2's whole answer. */
  lemma NothingIsLost<R>(actions: seq<Action<R>>, answer: seq<R>)
    ensures var t, more := Trace(Closed, actions), actions + [Next(answer)];
      Last(Trace(Closed, more)).Exhausted? <==> Recent(t) == Asked(more)
  {
    var more := actions + [Next(answer)];
    assert Init(more) == actions && Last(more) == Next(answer);
    ScanReturnsPrefix(actions);
  }

  function WithoutStatements<R>(actions: seq<Action<R>>): seq<Action<R>>
    decreases |actions|
  {
    if actions == [] then []
    else WithoutStatements(Init(actions)) + if Last(actions).Statement? then [] else [Last(actions)]
  }

  /** Savepoint statements are invisible to the scan, wherever they fall. */
  lemma {:induction false} StatementsAreInvisible<R>(c: Cursor<R>, actions: seq<Action<R>>)
    ensures Outputs(c, actions) == Outputs(c, WithoutStatements(actions))
    ensures CursorAfterAll(c, actions) == CursorAfterAll(c, WithoutStatements(actions))
    decreases |actions|
  {
    if actions != [] {
      var rest := WithoutStatements(Init(actions));
      StatementsAreInvisible(c, Init(actions));
      if Last(actions).Statement? {
        assert WithoutStatements(actions) == rest;
      } else {
        assert Init(rest + [Last(actions)]) == rest;
      }
    }
  }
}
