/** The statement handles of a connection, a linked list that `db2AllocStmtHdl` prepends to and
    `db2FreeStmtHdl` unlinks from, and the scan that keeps its statement in it while savepoint
    statements come and go. */
module Handles {
  class HdlEntry {
    const hsql: nat
    var next: HdlEntry?

    constructor (hsql: nat, next: HdlEntry?)
      ensures this.hsql == hsql && this.next == next
    {
      this.hsql := hsql;
      this.next := next;
    }
  }

  /** The list after freeing the k-th entry: right at the head and from the third entry on, but the
      second entry takes the head with it. */
  function FreeAt<T>(s: seq<T>, k: nat): seq<T>
    requires k < |s|
  {
    if k <= 1 then s[k + 1..] else s[..k] + s[k + 1..]
  }

  /** A correct list would lose exactly the entry that is freed. */
  lemma FreeLosesOne<T>(s: seq<T>, k: nat)
    requires k < |s|
    ensures FreeAt(s, k) == s[..k] + s[k + 1..] <==> k != 1
  {
    if k == 0 {
      assert s[..0] + s[1..] == s[1..];
    } else if k == 1 {
      assert |s[..1] + s[2..]| == |s| - 1;
    }
  }

  /** The entry behind the i-th one. */
  ghost function After(entries: seq<HdlEntry>, i: nat): HdlEntry?
    requires i < |entries|
  {
    if i + 1 < |entries| then entries[i + 1] else null
  }

  /** Different handles, all of them given out before. */
  ghost predicate Distinct(entries: seq<HdlEntry>, issued: nat) {
    && (forall i | 0 <= i < |entries| :: entries[i].hsql < issued)
    && (forall i, j | 0 <= i < j < |entries| :: entries[i].hsql != entries[j].hsql)
  }

  lemma UniqueHandle(entries: seq<HdlEntry>, issued: nat, i: nat, k: nat)
    requires Distinct(entries, issued) && i < |entries| && k < |entries| && entries[i].hsql == entries[k].hsql
    ensures i == k
  {
  }

  lemma DistinctWithout(entries: seq<HdlEntry>, issued: nat, k: nat)
    requires Distinct(entries, issued) && k < |entries|
    ensures Distinct(FreeAt(entries, k), issued)
  {
    var rest := FreeAt(entries, k);
    forall i | 0 <= i < |rest|
      ensures rest[i] == entries[if k <= 1 then i + k + 1 else if i < k then i else i + 1]
    {
    }
  }

  function Hsqls(entries: seq<HdlEntry>): seq<nat> {
    seq(|entries|, i requires 0 <= i < |entries| => entries[i].hsql)
  }

  class HandleList {
    var head: HdlEntry?
    ghost var entries: seq<HdlEntry>
    ghost var repr: set<HdlEntry>
    /** The number of the next handle that DB2 gives out. */
    var issued: nat
    /** The handles given to SQLFreeHandle, in order. */
    var freed: seq<nat>

    constructor ()
      ensures Valid() && entries == [] && freed == [] && repr == {}
    {
      head, entries, repr, issued, freed := null, [], {}, 0, [];
    }

    ghost predicate Valid()
      reads this, repr
    {
      && (forall i | 0 <= i < |entries| :: entries[i] in repr)
      && (head == if entries == [] then null else entries[0])
      && (forall i | 0 <= i < |entries| :: entries[i].next == After(entries, i))
      && Distinct(entries, issued)
    }

    /** `db2AllocStmtHdl`; null when DB2 gives no handle. */
    method AllocStmtHdl() returns (entry: HdlEntry?)
      requires Valid()
      modifies this`head, this`entries, this`repr, this`issued
      ensures Valid() && fresh(repr - old(repr))
      ensures entry == null ==> entries == old(entries)
      ensures entry != null ==> fresh(entry) && entries == [entry] + old(entries)
    {
      var given: bool := *;
      if !given {
        return null;
      }
      entry := new HdlEntry(issued, head);
      head := entry;
      issued := issued + 1;
      entries, repr := [entry] + entries, repr + {entry};
    }

    /** `findhdlEntry`: the entry before the one with the handle, or the head when it comes first. */
    method FindhdlEntry(hsql: nat, ghost k: nat) returns (prev: HdlEntry)
      requires Valid() && k < |entries| && entries[k].hsql == hsql
      ensures prev == entries[if k == 0 then 0 else k - 1]
    {
      hide Distinct;
      var step := head;
      prev := head;
      ghost var i := 0;
      while step != null && step.hsql != hsql
        invariant 0 <= i <= k
        invariant step == entries[i] && prev == entries[if i == 0 then 0 else i - 1]
        decreases k - i
      {
        assert step.next == After(entries, i);
        prev := step;
        step := step.next;
        i := i + 1;
      }
      UniqueHandle(entries, issued, i, k);
    }

    /** `db2FreeStmtHdl`: the exact effect for every position. */
    method FreeStmtHdl(handle: HdlEntry, ghost k: nat)
      requires Valid() && k < |entries| && entries[k] == handle
      modifies this, repr
      ensures Valid() && repr == old(repr) && entries == FreeAt(old(entries), k)
      ensures freed == old(freed) + [handle.hsql]
    {
      var prev := FindhdlEntry(handle.hsql, k);
      freed := freed + [handle.hsql];
      if head == prev {
        CutHead(handle, k);
      } else {
        CutAfter(prev, handle, k);
      }
    }

    method CutHead(handle: HdlEntry, ghost k: nat)
      requires Valid() && k < |entries| && entries[k] == handle && k <= 1
      modifies this`head, this`entries
      ensures Valid() && entries == FreeAt(old(entries), k)
    {
      DistinctWithout(entries, issued, k);
      ghost var before := entries;
      assert handle.next == After(before, k);
      head := handle.next;
      entries := FreeAt(before, k);
      forall i | 0 <= i < |entries| ensures entries[i].next == After(entries, i) {
        assert before[i + k + 1].next == After(before, i + k + 1);
      }
    }

    method CutAfter(prev: HdlEntry, handle: HdlEntry, ghost k: nat)
      requires Valid() && 1 < k < |entries| && entries[k] == handle && entries[k - 1] == prev
      modifies this`entries, prev`next
      ensures Valid() && entries == FreeAt(old(entries), k)
    {
      DistinctWithout(entries, issued, k);
      ghost var before := entries;
      assert handle.next == After(before, k);
      prev.next := handle.next;
      entries := FreeAt(before, k);
      forall i | 0 <= i < |entries| ensures entries[i].next == After(entries, i) {
        if i < k - 1 {
          assert entries[i] == before[i] && entries[i].hsql != prev.hsql;
          assert old(before[i].next) == After(before, i);
        } else if i >= k {
          assert entries[i] == before[i + 1] && entries[i].hsql != prev.hsql;
          assert old(before[i + 1].next) == After(before, i + 1);
        }
      }
    }

    /** The loop of `db2EndTransaction`, which always frees the head. */
    method Drain()
      requires Valid()
      modifies this, repr
      ensures Valid() && repr == old(repr) && entries == [] && freed == old(freed) + Hsqls(old(entries))
    {
      ghost var k := 0;
      while head != null
        invariant Valid() && repr == old(repr) && k <= |old(entries)| && entries == old(entries)[k..]
        invariant freed == old(freed) + Hsqls(old(entries))[..k]
        decreases |old(entries)| - k
      {
        assert Hsqls(old(entries))[..k + 1] == Hsqls(old(entries))[..k] + [entries[0].hsql];
        FreeStmtHdl(head, 0);
        k := k + 1;
      }
      assert Hsqls(old(entries))[..k] == Hsqls(old(entries));
    }

    /** A savepoint or rollback statement: its handle is gone when it succeeds, and stays at the head
        when executing fails. */
    method RunStatement() returns (ok: bool)
      requires Valid()
      modifies this, repr
      ensures Valid() && fresh(repr - old(repr))
      ensures ok ==> entries == old(entries)
      ensures !ok ==> entries == old(entries) || (entries != [] && entries[1..] == old(entries))
    {
      var entry := AllocStmtHdl();
      if entry == null {
        return false;
      }
      ok := *;
      if ok {
        FreeStmtHdl(entry, 0);
      }
    }
  }
}
