/** `db2GetLob`: a large object is read in pieces and put together. */
module Lob {
  import Nodes

  const LOB_CHUNK_SIZE: nat := 8192

  datatype ReturnCode = Success | SuccessWithInfo

  /** The length indicator: the bytes left before the call, or unknown, or that there is no value. */
  datatype Indicator = Length(n: nat) | NoTotal | NullData

  function Min(a: nat, b: nat): nat {
    if a < b then a else b
  }

  /** The open column of the driver. SQLGetData for character data keeps one byte of the caller's buffer
      for a terminator, for binary data it uses all of them; it says that more is left by
      SQL_SUCCESS_WITH_INFO, and only then may it not know the length. */
  class Column {
    const data: string
    const binary: bool
    const isNull: bool
    var pos: nat

    /** NULL has no data. */
    constructor (data: Nodes.Option<string>, binary: bool)
      ensures this.data == (if data.Some? then data.value else "") && this.binary == binary && isNull == data.None? && pos == 0
    {
      this.data := if data.Some? then data.value else "";
      this.binary, isNull, pos := binary, data.None?, 0;
    }

    method GetData(buf: array<char>) returns (rc: ReturnCode, ind: Indicator)
      requires pos <= |data| && buf.Length > 0 && (isNull ==> data == "")
      modifies this`pos, buf
      ensures var room := if binary then buf.Length else buf.Length - 1;
        var left := |data| - old(pos);
        && pos == old(pos) + Min(left, room)
        && buf[..Min(left, room)] == data[old(pos)..pos]
        && (rc.SuccessWithInfo? <==> left > room)
        && (ind == NullData <==> isNull)
        && (!isNull ==> ind == Length(left) || (ind.NoTotal? && left > room))
    {
      var room := if binary then buf.Length else buf.Length - 1;
      var left := |data| - pos;
      var count := Min(left, room);
      for i := 0 to count
        invariant pos == old(pos)
        invariant forall k | 0 <= k < i :: buf[k] == data[pos + k]
      {
        buf[i] := data[pos + i];
      }
      if !binary {
        buf[count] := '\0';
      }
      assert buf[..count] == data[pos..pos + count];
      pos := pos + count;
      rc := if left > room then SuccessWithInfo else Success;
      ind := if isNull then NullData else Length(left);
      if left > room {
        var known: bool := *;
        if !known {
          ind := NoTotal;
        }
      }
    }
  }

  /** What is put together when each call uses up room bytes and at most LOB_CHUNK_SIZE are copied. */
  function Assembled(data: string, room: nat): (r: string)
    requires room > 0
  {
    if |data| <= room then data[..Min(|data|, LOB_CHUNK_SIZE)]
    else data[..Min(room, LOB_CHUNK_SIZE)] + Assembled(data[room..], room)
  }

  /** `db2realloc`: a larger block with the old contents in front. */
  method Grow(old_: array?<char>, keep: nat, size: nat) returns (value: array<char>)
    requires keep <= size && (keep > 0 ==> old_ != null && keep <= old_.Length)
    ensures fresh(value) && value.Length == size
    ensures keep > 0 ==> value[..keep] == old_[..keep]
  {
    value := new char[size];
    for i := 0 to keep
      invariant forall k | 0 <= k < i :: value[k] == old_[k]
    {
      value[i] := old_[i];
    }
  }

  /** What one call uses up of the buffer. */
  function Room(binary: bool): nat {
    if binary then LOB_CHUNK_SIZE + 1 else LOB_CHUNK_SIZE
  }

  /** One call, and how many of its bytes are to be copied. */
  method ReadChunk(column: Column, buf: array<char>) returns (rc: ReturnCode, extend: nat)
    requires column.pos <= |column.data| && buf.Length == LOB_CHUNK_SIZE + 1 && (column.isNull ==> column.data == "")
    modifies column`pos, buf
    ensures var left, room := column.data[old(column.pos)..], Room(column.binary);
      && column.pos == old(column.pos) + Min(|left|, room)
      && (rc.SuccessWithInfo? <==> |left| > room)
      && (rc.SuccessWithInfo? ==> column.data[column.pos..] == left[room..])
      && extend == Min(|left|, LOB_CHUNK_SIZE) && buf[..extend] == left[..extend]
  {
    ghost var left := column.data[column.pos..];
    var ind;
    rc, ind := column.GetData(buf);
    match ind {
      case NullData => extend := 0;
      case NoTotal => extend := LOB_CHUNK_SIZE;
      case Length(n) => extend := if n < LOB_CHUNK_SIZE then n else LOB_CHUNK_SIZE;
    }
    ghost var count := Min(|left|, Room(column.binary));
    assert buf[..count] == left[..count];
    assert buf[..extend] == buf[..count][..extend] && left[..extend] == left[..count][..extend];
  }

  /** `db2GetLob`. The block is always one byte longer than the value, and the terminator is in it; an
      empty object gives no block, and neither does NULL. */
  method GetLob(column: Column) returns (value: array?<char>, valueLen: nat)
    requires column.pos == 0 && (column.isNull ==> column.data == "")
    modifies column`pos
    ensures var whole := Assembled(column.data, Room(column.binary));
      && valueLen == |whole|
      && (value == null <==> whole == "")
      && (value != null ==> value.Length == valueLen + 1 && value[..valueLen] == whole && value[valueLen] == '\0')
  {
    var buf := new char[LOB_CHUNK_SIZE + 1];
    ghost var room := Room(column.binary);
    ghost var whole := Assembled(column.data, room);
    ghost var read := "";
    value, valueLen := null, 0;
    var rawRc := SuccessWithInfo;
    assert column.data[0..] == column.data && read + whole == whole;
    while rawRc.SuccessWithInfo?
      invariant column.pos <= |column.data|
      invariant value != buf && (value != null ==> fresh(value)) && Holds(value, valueLen, read)
      invariant rawRc.SuccessWithInfo? ==> whole == read + Assembled(column.data[column.pos..], room)
      invariant rawRc.SuccessWithInfo? && column.pos > 0 ==> column.pos < |column.data|
      invariant rawRc.Success? ==> whole == read
      decreases |column.data| - column.pos, rawRc.SuccessWithInfo?
    {
      ghost var left := column.data[column.pos..];
      var extend;
      rawRc, extend := ReadChunk(column, buf);
      value, valueLen := Extend(value, valueLen, buf, extend, read);
      AssembledStep(read, left, room, extend);
      read := read + left[..extend];
    }
    if value != null {
      value[valueLen] := '\0';
    }
  }

  /** The block and length found so far hold the text. */
  ghost predicate Holds(value: array?<char>, valueLen: nat, text: string)
    reads value
  {
    && valueLen == |text| && (value == null <==> text == "")
    && (value != null ==> value.Length == valueLen + 1 && value[..valueLen] == text)
  }

  lemma AssembledStep(read: string, left: string, room: nat, extend: nat)
    requires room > 0 && extend == Min(|left|, LOB_CHUNK_SIZE) <= room
    ensures read + Assembled(left, room)
         == if |left| <= room then read + left[..extend] else read + left[..extend] + Assembled(left[room..], room)
  {
  }

  /** Make room for a chunk and copy it behind what is there. */
  method Extend(value: array?<char>, valueLen: nat, buf: array<char>, extend: nat, ghost text: string)
    returns (longer: array?<char>, newLen: nat)
    requires value != buf && Holds(value, valueLen, text) && extend <= buf.Length
    ensures longer != buf && (longer != null ==> fresh(longer)) && Holds(longer, newLen, text + buf[..extend])
  {
    if valueLen == 0 {
      if extend > 0 {
        longer := Grow(null, 0, extend + 1);
      } else {
        longer := null;
      }
    } else {
      longer := Grow(value, valueLen, valueLen + extend + 1);
    }
    newLen := valueLen;
    if longer != null {
      CopyInto(longer, valueLen, buf, extend);
      newLen := newLen + extend;
    }
  }

  /** `memcpy`. */
  method CopyInto(value: array<char>, at: nat, buf: array<char>, count: nat)
    requires value != buf && at + count <= value.Length && count <= buf.Length
    modifies value
    ensures value[..at + count] == old(value[..at]) + buf[..count]
  {
    for i := 0 to count
      invariant value[..at] == old(value[..at]) && forall k | 0 <= k < i :: value[at + k] == buf[k]
    {
      value[at + i] := buf[i];
    }
  }

  /** Character objects are put together completely. */
  lemma {:induction false} ClobIsWhole(data: string)
    ensures Assembled(data, LOB_CHUNK_SIZE) == data
    decreases |data|
  {
    if |data| > LOB_CHUNK_SIZE {
      ClobIsWhole(data[LOB_CHUNK_SIZE..]);
      assert data == data[..LOB_CHUNK_SIZE] + data[LOB_CHUNK_SIZE..];
    }
  }

  /** Binary objects lose a byte at the end of every full buffer, so they are whole exactly when they
      fit into one chunk of 8 KB. */
  lemma BlobIsWhole(data: string)
    ensures Assembled(data, LOB_CHUNK_SIZE + 1) == data <==> |data| <= 8192
  {
    if |data| > LOB_CHUNK_SIZE {
      BlobLength(data);
    }
  }

  lemma {:induction false} BlobLength(data: string)
    ensures |Assembled(data, LOB_CHUNK_SIZE + 1)| <= |data|
    ensures |data| > LOB_CHUNK_SIZE ==> |Assembled(data, LOB_CHUNK_SIZE + 1)| < |data|
    decreases |data|
  {
    if |data| > LOB_CHUNK_SIZE + 1 {
      BlobLength(data[LOB_CHUNK_SIZE + 1..]);
    }
  }
}
