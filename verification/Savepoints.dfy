/** The remote transaction follows the local one: `db2GetSession`, `db2SetSavepoint`,
    `db2EndSubtransaction`, `db2EndTransaction` and the callbacks that call them. Savepoints are set
    late and their names are used again; the result is that of a machine which takes a snapshot
    whenever a subtransaction begins. */
module Savepoints {
  import opened Sequences

  // ----- the remote server

  /** A savepoint: its number and the contents it restores. */
  datatype Mark<+D> = Mark(level: nat, snapshot: D)

  /** The savepoints of other levels. */
  function Others<D>(marks: seq<Mark<D>>, level: nat): seq<Mark<D>> {
    if marks == [] then []
    else (if marks[0].level == level then [] else [marks[0]]) + Others(marks[1..], level)
  }

  /** The savepoints up to a level, in the order of the list. */
  function UpTo<D>(marks: seq<Mark<D>>, level: nat): seq<Mark<D>> {
    if marks == [] then []
    else (if marks[0].level <= level then [marks[0]] else []) + UpTo(marks[1..], level)
  }

  /** The first savepoint of a level. */
  function Find<D>(marks: seq<Mark<D>>, level: nat): (i: nat)
    ensures i <= |marks| && (i < |marks| ==> marks[i].level == level)
    ensures forall j | 0 <= j < i :: marks[j].level != level
  {
    if marks == [] || marks[0].level == level then 0 else 1 + Find(marks[1..], level)
  }

  /** A DB2 server as one connection sees it: what is committed, what the transaction sees, its
      savepoints, and how transactions ended (true for a commit). */
  class Server<D> {
    var committed: D
    var current: D
    var marks: seq<Mark<D>>
    var ended: seq<bool>

    constructor (contents: D)
      ensures committed == current == contents && marks == [] && ended == []
    {
      committed, current, marks, ended := contents, contents, [], [];
    }

    /** SAVEPOINT sN destroys an older sN and creates one on top, or fails. */
    method Savepoint(level: nat) returns (ok: bool)
      modifies this`marks
      ensures marks == if ok then Others(old(marks), level) + [Mark(level, current)] else old(marks)
    {
      ok := *;
      if ok {
        marks := Others(marks, level) + [Mark(level, current)];
      }
    }

    /** ROLLBACK TO SAVEPOINT sN restores the contents, keeps sN and drops the later ones. */
    method RollbackTo(level: nat) returns (ok: bool)
      modifies this`marks, this`current
      ensures ok == (Find(old(marks), level) < |old(marks)|)
      ensures ok ==> current == old(marks)[Find(old(marks), level)].snapshot
      ensures ok ==> marks == old(marks)[..Find(old(marks), level) + 1]
      ensures !ok ==> current == old(current) && marks == old(marks)
    {
      var i := Find(marks, level);
      ok := i < |marks|;
      if ok {
        current := marks[i].snapshot;
        marks := marks[..i + 1];
      }
    }

    /** SQLEndTran; only a commit can fail. */
    method EndTran(commit: bool) returns (ok: bool)
      modifies this
      ensures !commit ==> ok
      ensures !ok ==> committed == old(committed) && current == old(current) && marks == old(marks) && ended == old(ended)
      ensures ok ==> committed == current == if commit then old(current) else old(committed)
      ensures ok ==> marks == [] && ended == old(ended) + [commit]
    {
      ok := *;
      if !commit {
        ok := true;
      }
      if ok {
        if commit {
          committed := current;
        } else {
          current := committed;
        }
        marks := [];
        ended := ended + [commit];
      }
    }

    method Change(f: D -> D)
      modifies this`current
      ensures current == f(old(current))
    {
      current := f(current);
    }
  }

  // ----- the connection

  class Connection<D> {
    const server: Server<D>
    var xactLevel: nat

    constructor (server: Server<D>)
      ensures this.server == server && xactLevel == 0
    {
      this.server := server;
      xactLevel := 0;
    }

    /** `db2SetSavepoint`: set savepoints up to the level, stopping at the first failure. */
    method SetSavepoint(nestLevel: nat) returns (ok: bool)
      modifies this`xactLevel, server`marks
      ensures Chain(old(server.marks), old(xactLevel), server.marks, xactLevel, server.current)
      ensures ok ==> xactLevel == if old(xactLevel) < nestLevel then nestLevel else old(xactLevel)
      ensures xactLevel <= if old(xactLevel) < nestLevel then nestLevel else old(xactLevel)
    {
      while xactLevel < nestLevel
        invariant Chain(old(server.marks), old(xactLevel), server.marks, xactLevel, server.current)
        invariant xactLevel <= if old(xactLevel) < nestLevel then nestLevel else old(xactLevel)
        decreases nestLevel - xactLevel
      {
        ghost var before := server.marks;
        ok := server.Savepoint(xactLevel + 1);
        if !ok {
          return;
        }
        ChainGrows(old(server.marks), old(xactLevel), before, xactLevel, server.current);
        xactLevel := xactLevel + 1;
      }
      ok := true;
    }

    /** `db2GetSession`: begin the remote transaction if there is none, then catch up. */
    method GetSession(curLevel: nat) returns (ok: bool)
      modifies this`xactLevel, server`marks
      ensures var start := if old(xactLevel) == 0 then 1 else old(xactLevel);
        && Chain(old(server.marks), start, server.marks, xactLevel, server.current)
        && (ok ==> xactLevel == if start < curLevel then curLevel else start)
        && (xactLevel <= if start < curLevel then curLevel else start)
    {
      if xactLevel == 0 {
        xactLevel := 1;
      }
      ok := SetSavepoint(curLevel);
    }

    /** `db2EndSubtransaction`: nothing to do for a level that was never reached; a commit leaves the
        savepoint where it is. */
    method EndSubtransaction(nestLevel: nat, isCommit: bool) returns (ok: bool)
      requires nestLevel > 0
      modifies this`xactLevel, server`marks, server`current
      ensures xactLevel == if old(xactLevel) < nestLevel then old(xactLevel) else nestLevel - 1
      ensures old(xactLevel) < nestLevel || isCommit ==>
        ok && server.marks == old(server.marks) && server.current == old(server.current)
      ensures old(xactLevel) >= nestLevel && !isCommit ==>
        var i := Find(old(server.marks), nestLevel);
        && ok == (i < |old(server.marks)|)
        && (ok ==> server.current == old(server.marks)[i].snapshot && server.marks == old(server.marks)[..i + 1])
    {
      ok := true;
      if xactLevel < nestLevel {
        return;
      }
      xactLevel := nestLevel - 1;
      if isCommit {
        return;
      }
      ok := server.RollbackTo(nestLevel);
    }

    /** `db2EndTransaction`. An error leaves the level, so that the abort that follows still rolls back. */
    method EndTransaction(isCommit: bool, noError: bool) returns (ok: bool)
      modifies this`xactLevel, server
      ensures old(xactLevel) == 0 ==>
        ok && xactLevel == 0 && server.committed == old(server.committed) && server.current == old(server.current)
        && server.marks == old(server.marks) && server.ended == old(server.ended)
      ensures old(xactLevel) > 0 && (!isCommit || (ok && !noError)) ==>
        && ok && xactLevel == 0 && server.marks == [] && server.ended == old(server.ended) + [isCommit]
        && server.committed == server.current == if isCommit then old(server.current) else old(server.committed)
      ensures noError ==> ok && xactLevel == 0
      ensures old(xactLevel) > 0 && isCommit && noError ==>
        || (server.committed == server.current == old(server.current) && server.marks == [] && server.ended == old(server.ended) + [true])
        || (server.committed == old(server.committed) && server.current == old(server.current)
            && server.marks == old(server.marks) && server.ended == old(server.ended))
      ensures !ok ==>
        && isCommit && xactLevel == old(xactLevel) > 0
        && server.committed == old(server.committed) && server.current == old(server.current)
        && server.marks == old(server.marks) && server.ended == old(server.ended)
    {
      ok := true;
      if xactLevel != 0 {
        var done := server.EndTran(isCommit);
        if !done && !noError {
          return false;
        }
        xactLevel := 0;
      }
    }
  }

  /** Savepoints were added one level after the other, and everything below is still in place. */
  ghost predicate Chain<D>(before: seq<Mark<D>>, start: nat, after: seq<Mark<D>>, level: nat, current: D) {
    && start <= level
    && UpTo(after, level) == UpTo(before, start) + Fresh(start, level, current)
  }

  /** New savepoints for the levels above start. */
  ghost function Fresh<D>(start: nat, level: nat, current: D): seq<Mark<D>>
    requires start <= level
  {
    seq(level - start, i requires 0 <= i < level - start => Mark(start + 1 + i, current))
  }

  lemma {:induction false} OthersUpTo<D>(marks: seq<Mark<D>>, level: nat)
    ensures UpTo(Others(marks, level + 1), level + 1) == UpTo(marks, level)
  {
    if marks != [] {
      OthersUpTo(marks[1..], level);
      var rest := Others(marks[1..], level + 1);
      if marks[0].level == level + 1 {
        assert Others(marks, level + 1) == rest;
      } else {
        assert Others(marks, level + 1) == [marks[0]] + rest;
        assert ([marks[0]] + rest)[1..] == rest;
      }
    }
  }

  lemma {:induction false} UpToCat<D>(a: seq<Mark<D>>, b: seq<Mark<D>>, level: nat)
    ensures UpTo(a + b, level) == UpTo(a, level) + UpTo(b, level)
  {
    if a == [] {
      assert a + b == b;
    } else {
      assert (a + b)[1..] == a[1..] + b;
      UpToCat(a[1..], b, level);
      Regroup(if a[0].level <= level then [a[0]] else [], UpTo(a[1..], level), UpTo(b, level));
    }
  }

  lemma ChainGrows<D>(before: seq<Mark<D>>, start: nat, marks: seq<Mark<D>>, level: nat, current: D)
    requires Chain(before, start, marks, level, current)
    ensures Chain(before, start, Others(marks, level + 1) + [Mark(level + 1, current)], level + 1, current)
  {
    var top := [Mark(level + 1, current)];
    UpToCat(Others(marks, level + 1), top, level + 1);
    OthersUpTo(marks, level);
    assert UpTo(top, level + 1) == top;
    assert Fresh(start, level, current) + top == Fresh(start, level + 1, current);
  }

  // ----- the machine that takes a snapshot whenever a subtransaction begins

  /** What PostgreSQL does. An acquisition or a write may fail, and so may the remote commit. */
  datatype Event<!D> = Begin | CommitSub | AbortSub | Acquire | Write(change: D -> D) | Commit | Abort

  /** `stack[i]` is what subtransaction level i + 2 saw when it began. `used` says that the transaction
      has acquired a session, `ended` how remote transactions ended. */
  datatype Eager<D> = Eager(committed: D, db: D, stack: seq<D>, used: bool, ended: seq<bool>)

  /** Subtransaction events need a subtransaction, transaction events none. */
  predicate Enabled<D>(depth: nat, e: Event<D>) {
    match e
    case CommitSub => depth > 0
    case AbortSub => depth > 0
    case Commit => depth == 0
    case Abort => depth == 0
    case _ => true
  }

  function DepthAfter<D>(depth: nat, e: Event<D>): nat
    requires Enabled(depth, e)
  {
    match e
    case Begin => depth + 1
    case CommitSub => depth - 1
    case AbortSub => depth - 1
    case _ => depth
  }

  predicate AllEnabled<D>(depth: nat, es: seq<Event<D>>)
    decreases |es|
  {
    es == [] || (Enabled(depth, es[0]) && AllEnabled(DepthAfter(depth, es[0]), es[1..]))
  }

  function EagerStep<D>(s: Eager<D>, e: Event<D>, ok: bool): (t: Eager<D>)
    requires Enabled(|s.stack|, e)
    ensures |t.stack| == DepthAfter(|s.stack|, e)
  {
    match e
    case Begin => s.(stack := s.stack + [s.db])
    case CommitSub => s.(stack := s.stack[..|s.stack| - 1])
    case AbortSub => s.(db := s.stack[|s.stack| - 1], stack := s.stack[..|s.stack| - 1])
    case Acquire => s.(used := true)
    case Write(f) => s.(used := true, db := if ok then f(s.db) else s.db)
    case Commit =>
      if ok then s.(committed := s.db, used := false, ended := s.ended + if s.used then [true] else [])
      else s.(db := s.committed, used := false, ended := s.ended + if s.used then [false] else [])
    case Abort => s.(db := s.committed, used := false, ended := s.ended + if s.used then [false] else [])
  }

  function EagerRun<D>(s: Eager<D>, es: seq<Event<D>>, oks: seq<bool>): (t: Eager<D>)
    requires |oks| == |es| && AllEnabled(|s.stack|, es)
    decreases |es|
  {
    if es == [] then s else EagerRun(EagerStep(s, es[0], oks[0]), es[1..], oks[1..])
  }

  /** The savepoints that must exist when levels 2 to level have one. */
  ghost function Expected<D>(stack: seq<D>, level: nat): seq<Mark<D>>
    requires level <= |stack| + 1
  {
    if level == 0 then [] else seq(level - 1, i requires 0 <= i < level - 1 => Mark(i + 2, stack[i]))
  }

  lemma {:induction false} FindsTop<D>(marks: seq<Mark<D>>, level: nat, lower: seq<Mark<D>>, top: D)
    requires level > 0 && UpTo(marks, level) == lower + [Mark(level, top)]
    requires forall i | 0 <= i < |lower| :: lower[i].level < level
    ensures var i := Find(marks, level);
      && i < |marks| && marks[i].snapshot == top
      && UpTo(marks[..i + 1], level - 1) == lower
    ensures UpTo(marks, level - 1) == lower
  {
    var rest := marks[1..];
    if marks[0].level > level {
      FindsTop(rest, level, lower, top);
      assert marks[..Find(marks, level) + 1][1..] == rest[..Find(rest, level) + 1];
    } else if marks[0].level == level {
      assert (lower + [Mark(level, top)])[0] == marks[0];
      if lower != [] {
        assert false;
      }
      assert UpTo(rest, level) == [];
      NoneLower(rest, level);
      assert marks[..1][1..] == [];
    } else {
      assert (lower + [Mark(level, top)])[0] == marks[0];
      assert (lower + [Mark(level, top)])[1..] == lower[1..] + [Mark(level, top)];
      FindsTop(rest, level, lower[1..], top);
      assert marks[..Find(marks, level) + 1][1..] == rest[..Find(rest, level) + 1];
    }
  }

  lemma {:induction false} NoneLower<D>(marks: seq<Mark<D>>, level: nat)
    requires level > 0 && UpTo(marks, level) == []
    ensures UpTo(marks, level - 1) == []
  {
    if marks != [] {
      NoneLower(marks[1..], level);
    }
  }

  // ----- the refinement

  /** One connection driven by the events of one session. */
  class Backend<D> {
    const conn: Connection<D>
    ghost var eager: Eager<D>
    var depth: nat

    constructor (contents: D)
      ensures Valid() && fresh(conn) && fresh(conn.server)
      ensures eager == Eager(contents, contents, [], false, [])
    {
      var server := new Server<D>(contents);
      conn := new Connection<D>(server);
      eager := Eager(contents, contents, [], false, []);
      depth := 0;
    }

    ghost predicate Valid()
      reads this, conn, conn.server
    {
      && depth == |eager.stack|
      && Follows(conn.server.committed, conn.server.current, conn.server.marks, conn.server.ended, conn.xactLevel, eager)
    }

    /** `subtransactionCallback` at the level that ends. */
    method EndLevel(isCommit: bool)
      requires Valid() && depth > 0
      modifies this, conn, conn.server
      ensures Valid() && eager == EagerStep(old(eager), if isCommit then CommitSub else AbortSub, true)
      ensures isCommit ==> conn.server.current == old(conn.server.current)
    {
      LeaveLevel(conn.server.marks, conn.xactLevel, eager);
      var done := conn.EndSubtransaction(depth + 1, isCommit);
      eager := EagerStep(eager, if isCommit then CommitSub else AbortSub, true);
      depth := depth - 1;
    }

    method AcquireSession() returns (ok: bool)
      requires Valid()
      modifies this`eager, conn`xactLevel, conn.server`marks
      ensures Valid() && eager == old(eager).(used := true) && (ok ==> conn.xactLevel == depth + 1)
    {
      ghost var marks, level := conn.server.marks, conn.xactLevel;
      ok := conn.GetSession(depth + 1);
      CatchUp(marks, conn.server.marks, level, conn.xactLevel, eager);
      eager := eager.(used := true);
    }

    /** A statement that changes remote contents runs in a session of its own level. */
    method RunWrite(f: D -> D) returns (ok: bool)
      requires Valid()
      modifies this`eager, conn`xactLevel, conn.server`marks, conn.server`current
      ensures Valid() && eager == EagerStep(old(eager), Write(f), ok)
      ensures conn.server.current == if ok then f(old(conn.server.current)) else old(conn.server.current)
    {
      ok := AcquireSession();
      if ok {
        conn.server.Change(f);
        eager := eager.(db := f(eager.db));
      }
    }

    /** `transactionCallback`: a commit comes as PRE_COMMIT and COMMIT, and as an abort when the remote
        commit fails. The second call finds nothing to do. */
    method EndTopLevel(isCommit: bool) returns (ok: bool)
      requires Valid() && depth == 0
      modifies this`eager, conn, conn.server
      ensures Valid() && eager == EagerStep(old(eager), if isCommit then Commit else Abort, ok)
      ensures conn.server.committed == conn.server.current == if isCommit && ok then old(conn.server.current) else old(conn.server.committed)
    {
      ok := true;
      if isCommit {
        ok := conn.EndTransaction(true, false);
        label ended:
        if ok {
          var again := conn.EndTransaction(true, true);
          assert conn.server.ended == old@ended(conn.server.ended);
        }
      }
      if !isCommit || !ok {
        var undone := conn.EndTransaction(false, true);
      }
      eager := EagerStep(eager, if isCommit then Commit else Abort, ok);
    }

    /** One event. */
    method Handle(e: Event<D>) returns (ok: bool)
      requires Valid() && Enabled(depth, e)
      modifies this, conn, conn.server
      ensures Valid() && eager == EagerStep(old(eager), e, ok)
    {
      ok := true;
      match e
      case Begin =>
        eager := EagerStep(eager, e, ok);
        depth := depth + 1;
        assert Expected(eager.stack, conn.xactLevel) == Expected(old(eager).stack, conn.xactLevel);
      case CommitSub => EndLevel(true);
      case AbortSub => EndLevel(false);
      case Acquire => ok := AcquireSession();
      case Write(f) => ok := RunWrite(f);
      case Commit => ok := EndTopLevel(true);
      case Abort => ok := EndTopLevel(false);
    }

    /** A whole run. */
    method Run(es: seq<Event<D>>) returns (oks: seq<bool>)
      requires Valid() && AllEnabled(depth, es)
      modifies this, conn, conn.server
      ensures Valid() && |oks| == |es| && eager == EagerRun(old(eager), es, oks)
    {
      oks := [];
      var i := 0;
      while i < |es|
        invariant 0 <= i <= |es| && |oks| == i
        invariant Valid() && AllEnabled(depth, es[i..])
        invariant AllEnabled(|old(eager).stack|, es[..i]) && eager == EagerRun(old(eager), es[..i], oks)
      {
        ghost var done := es[..i];
        var ok := Handle(es[i]);
        assert es[i..][1..] == es[i + 1..];
        assert es[..i + 1] == done + [es[i]];
        RunSnoc(old(eager), done, es[i], oks + [ok]);
        assert (oks + [ok])[..i] == oks;
        oks := oks + [ok];
        i := i + 1;
      }
      assert es[..i] == es;
    }

    /** However a subtransaction uses the connection, its abort leaves the remote contents as they
        were when it began. */
    method AbortedSubtransaction(body: seq<Event<D>>) returns (oks: seq<bool>)
      requires Valid() && Inside(0, body)
      modifies this, conn, conn.server
      ensures Valid() && conn.server.current == old(conn.server.current)
    {
      AbortRestores(eager, body, seq(|body| + 2, _ => true));
      oks := Run([Begin] + body + [AbortSub]);
      AbortRestores(old(eager), body, oks);
    }
  }

  /** The coupling: the contents agree, the savepoints of levels 2 to xactLevel are there in order with
      the right snapshots, and every deeper subtransaction began with what is there now. */
  ghost predicate Follows<D>(committed: D, current: D, marks: seq<Mark<D>>, ended: seq<bool>, level: nat, s: Eager<D>) {
    && committed == s.committed && current == s.db && ended == s.ended
    && (s.used <==> level > 0) && level <= |s.stack| + 1
    && (level == 0 ==> marks == [] && current == committed)
    && UpTo(marks, level) == Expected(s.stack, level)
    && forall i | 0 <= i < |s.stack| && level <= i + 1 :: s.stack[i] == current
  }

  /** Leaving a subtransaction that has a savepoint. */
  lemma LeaveLevel<D>(marks: seq<Mark<D>>, level: nat, s: Eager<D>)
    requires s.stack != [] && level <= |s.stack| + 1 && UpTo(marks, level) == Expected(s.stack, level)
    ensures var n := |s.stack| + 1;
      var below := s.stack[..n - 2];
      if level < n then Expected(below, level) == Expected(s.stack, level)
      else
        var i := Find(marks, n);
        && UpTo(marks, n - 1) == Expected(below, n - 1)
        && i < |marks| && marks[i].snapshot == s.stack[n - 2]
        && UpTo(marks[..i + 1], n - 1) == Expected(below, n - 1)
  {
    var n := |s.stack| + 1;
    var below := s.stack[..n - 2];
    if level < n {
      assert Expected(below, level) == Expected(s.stack, level);
    } else {
      assert Expected(s.stack, n) == Expected(below, n - 1) + [Mark(n, s.stack[n - 2])];
      FindsTop(marks, n, Expected(below, n - 1), s.stack[n - 2]);
    }
  }

  /** Acquiring a session sets the missing savepoints, and their snapshots are right because nothing has
      changed since the levels began. */
  lemma CatchUp<D>(marks: seq<Mark<D>>, after: seq<Mark<D>>, level: nat, reached: nat, s: Eager<D>)
    requires Follows(s.committed, s.db, marks, s.ended, level, s)
    requires Chain(marks, if level == 0 then 1 else level, after, reached, s.db) && reached <= |s.stack| + 1
    ensures Follows(s.committed, s.db, after, s.ended, reached, s.(used := true))
  {
    var start := if level == 0 then 1 else level;
    assert UpTo(marks, start) == Expected(s.stack, start);
    assert Expected(s.stack, start) + Fresh(start, reached, s.db) == Expected(s.stack, reached);
  }

  // ----- what the eager machine promises

  /** Events inside a subtransaction: deeper ones may begin and end, this one does not. */
  predicate Inside<D>(depth: nat, es: seq<Event<D>>)
    decreases |es|
  {
    if es == [] then depth == 0
    else Enabled(depth, es[0]) && !es[0].Commit? && !es[0].Abort? && Inside(DepthAfter(depth, es[0]), es[1..])
  }

  lemma {:induction false} InsideKeepsBase<D>(s: Eager<D>, base: nat, es: seq<Event<D>>, oks: seq<bool>)
    requires 0 < base <= |s.stack| && |oks| == |es|
    requires Inside(|s.stack| - base, es)
    ensures AllEnabled(|s.stack|, es) && EagerRun(s, es, oks).stack == s.stack[..base]
    decreases |es|
  {
    if es != [] {
      InsideKeepsBase(EagerStep(s, es[0], oks[0]), base, es[1..], oks[1..]);
    }
  }

  /** One more event at the end of a run. */
  lemma {:induction false} RunSnoc<D>(s: Eager<D>, es: seq<Event<D>>, e: Event<D>, oks: seq<bool>)
    requires |oks| == |es| + 1 && AllEnabled(|s.stack|, es)
    requires Enabled(|EagerRun(s, es, oks[..|es|]).stack|, e)
    ensures AllEnabled(|s.stack|, es + [e])
    ensures EagerRun(s, es + [e], oks) == EagerStep(EagerRun(s, es, oks[..|es|]), e, oks[|es|])
    decreases |es|
  {
    if es == [] {
      assert es + [e] == [e];
      assert [e][1..] == [];
    } else {
      assert (es + [e])[1..] == es[1..] + [e];
      assert oks[..|es|][1..] == oks[1..][..|es| - 1];
      RunSnoc(EagerStep(s, es[0], oks[0]), es[1..], e, oks[1..]);
    }
  }

  lemma RunCons<D>(s: Eager<D>, e: Event<D>, es: seq<Event<D>>, oks: seq<bool>)
    requires |oks| == |es| + 1 && Enabled(|s.stack|, e) && AllEnabled(|EagerStep(s, e, oks[0]).stack|, es)
    ensures AllEnabled(|s.stack|, [e] + es)
    ensures EagerRun(s, [e] + es, oks) == EagerRun(EagerStep(s, e, oks[0]), es, oks[1..])
  {
    assert ([e] + es)[1..] == es;
  }

  /** What a subtransaction does before it is aborted. */
  lemma BodyThenAbort<D>(b: Eager<D>, body: seq<Event<D>>, oks: seq<bool>)
    requires b.stack != [] && Inside(0, body) && |oks| == |body| + 1
    ensures AllEnabled(|b.stack|, body + [AbortSub])
    ensures var n := |b.stack| - 1;
      EagerRun(b, body + [AbortSub], oks) == EagerRun(b, body + [AbortSub], oks).(db := b.stack[n], stack := b.stack[..n], committed := b.committed)
  {
    hide EagerRun;
    InsideKeepsBase(b, |b.stack|, body, oks[..|body|]);
    assert b.stack[..|b.stack|] == b.stack;
    InsideCommitsNothing(b, body, oks[..|body|]);
    RunSnoc(b, body, AbortSub, oks);
  }

  /** Aborting a subtransaction undoes everything since it began. */
  lemma AbortRestores<D>(s: Eager<D>, body: seq<Event<D>>, oks: seq<bool>)
    requires Inside(0, body) && |oks| == |body| + 2
    ensures AllEnabled(|s.stack|, [Begin] + body + [AbortSub])
    ensures var t := EagerRun(s, [Begin] + body + [AbortSub], oks);
      t.db == s.db && t.stack == s.stack && t.committed == s.committed
  {
    hide EagerRun;
    var b := EagerStep(s, Begin, oks[0]);
    assert b.stack == s.stack + [s.db] && b.stack[..|s.stack|] == s.stack;
    BodyThenAbort(b, body, oks[1..]);
    RunCons(s, Begin, body + [AbortSub], oks);
    assert [Begin] + body + [AbortSub] == [Begin] + (body + [AbortSub]);
  }

  /** Committing a subtransaction keeps everything that happened in it, and beginning one changes nothing. */
  lemma CommitKeeps<D>(s: Eager<D>, body: seq<Event<D>>, oks: seq<bool>)
    requires Inside(0, body) && |oks| == |body| + 2
    ensures var b := s.(stack := s.stack + [s.db]);
      && AllEnabled(|b.stack|, body) && AllEnabled(|s.stack|, [Begin] + body + [CommitSub])
      && EagerRun(s, [Begin] + body + [CommitSub], oks) == EagerRun(b, body, oks[1..][..|body|]).(stack := s.stack)
  {
    hide EagerRun;
    var b := EagerStep(s, Begin, oks[0]);
    assert b.stack[..|b.stack|] == b.stack && b.stack[..|s.stack|] == s.stack;
    InsideKeepsBase(b, |b.stack|, body, oks[1..][..|body|]);
    RunSnoc(b, body, CommitSub, oks[1..]);
    RunCons(s, Begin, body + [CommitSub], oks);
    assert [Begin] + body + [CommitSub] == [Begin] + (body + [CommitSub]);
  }

  /** Whether the events acquire a session. */
  predicate Uses<D>(es: seq<Event<D>>)
    decreases |es|
  {
    es != [] && (es[0].Acquire? || es[0].Write? || Uses(es[1..]))
  }

  predicate NoEnd<D>(es: seq<Event<D>>)
    decreases |es|
  {
    es == [] || (!es[0].Commit? && !es[0].Abort? && NoEnd(es[1..]))
  }

  lemma {:induction false} NoEndCommitsNothing<D>(s: Eager<D>, es: seq<Event<D>>, oks: seq<bool>)
    requires |oks| == |es| && AllEnabled(|s.stack|, es) && NoEnd(es)
    ensures var t := EagerRun(s, es, oks);
      t.committed == s.committed && t.ended == s.ended && (t.used <==> s.used || Uses(es))
    decreases |es|
  {
    if es != [] {
      NoEndCommitsNothing(EagerStep(s, es[0], oks[0]), es[1..], oks[1..]);
    }
  }

  lemma {:induction false} InsideHasNoEnd<D>(depth: nat, es: seq<Event<D>>)
    requires Inside(depth, es)
    ensures NoEnd(es)
    decreases |es|
  {
    if es != [] {
      InsideHasNoEnd(DepthAfter(depth, es[0]), es[1..]);
    }
  }

  lemma InsideCommitsNothing<D>(s: Eager<D>, es: seq<Event<D>>, oks: seq<bool>)
    requires |oks| == |es| && AllEnabled(|s.stack|, es) && Inside(0, es)
    ensures EagerRun(s, es, oks).committed == s.committed
  {
    InsideHasNoEnd(0, es);
    NoEndCommitsNothing(s, es, oks);
  }

  /** A transaction that used the connection ends with exactly one remote commit or rollback, one that
      did not with none; what is committed changes only by a commit that succeeds. */
  lemma EndsOnce<D>(s: Eager<D>, body: seq<Event<D>>, end: Event<D>, oks: seq<bool>)
    requires s.stack == [] && !s.used && Inside(0, body) && (end.Commit? || end.Abort?) && |oks| == |body| + 1
    requires AllEnabled(0, body + [end])
    ensures AllEnabled(0, body)
    ensures var t := EagerRun(s, body + [end], oks);
      var success := end.Commit? && oks[|body|];
      && t.ended == s.ended + (if Uses(body) then [success] else [])
      && !t.used && (!success ==> t.committed == s.committed && t.db == s.committed)
      && (success ==> t.committed == t.db == EagerRun(s, body, oks[..|body|]).db)
  {
    InsideHasNoEnd(0, body);
    EnabledPrefix(0, body, [end]);
    BodyReturns(s, body, oks[..|body|]);
    NoEndCommitsNothing(s, body, oks[..|body|]);
    RunSnoc(s, body, end, oks);
  }

  lemma {:induction false} EnabledPrefix<D>(depth: nat, a: seq<Event<D>>, b: seq<Event<D>>)
    requires AllEnabled(depth, a + b)
    ensures AllEnabled(depth, a)
    decreases |a|
  {
    if a != [] {
      assert (a + b)[1..] == a[1..] + b;
      EnabledPrefix(DepthAfter(depth, a[0]), a[1..], b);
    }
  }

  lemma {:induction false} BodyReturns<D>(s: Eager<D>, es: seq<Event<D>>, oks: seq<bool>)
    requires |oks| == |es| && AllEnabled(|s.stack|, es) && Inside(|s.stack|, es)
    ensures EagerRun(s, es, oks).stack == []
    decreases |es|
  {
    if es != [] {
      BodyReturns(EagerStep(s, es[0], oks[0]), es[1..], oks[1..]);
    }
  }
}
