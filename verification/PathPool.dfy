/** The growing pool of NUL-terminated paths that both tables point into. */
module PathPool {
  import opened Bytes

  const INITIAL_CAPACITY: nat := 4096

  /** Where a path was stored, or why it was not. */
  datatype Stored = At(offset: nat) | Full | NoMemory

  class Pool {
    var data: array<Byte>
    var size: nat
    ghost var short: bool // an allocation failed

    ghost predicate Valid()
      reads this
    {
      size <= data.Length && size < TWO_32 && data.Length < 2 * TWO_32
    }

    ghost function Contents(): seq<Byte>
      reads this, data
      requires Valid()
    {
      data[..size]
    }

    constructor ()
      ensures Valid() && fresh(data) && Contents() == [] && !short
    {
      data := new Byte[0];
      size := 0;
      short := false;
    }

    /** A bigger copy of the data, or nothing when memory is short. */
    method Grown(capacity: nat) returns (ok: bool, grown: array<Byte>)
      requires Valid() && data.Length <= capacity
      modifies `short
      ensures short == (old(short) || !ok)
      ensures ok ==> fresh(grown) && grown.Length == capacity && grown[..size] == data[..size]
    {
      ok := *;
      short := short || !ok;
      grown := data;
      if ok {
        grown := new Byte[capacity];
        for i := 0 to size
          invariant grown[..i] == data[..i] && short == old(short)
        {
          grown[i] := data[i];
        }
      }
    }

    /** Copies a path and its terminator behind what is stored. */
    method CopyIn(path: seq<Byte>)
      requires Valid() && size + |path| + 1 <= data.Length && size + |path| + 1 < TWO_32
      modifies `size, data
      ensures Valid() && Contents() == old(Contents()) + path + [0]
    {
      ghost var before := data[..size];
      for i := 0 to |path|
        invariant size == |before|
        invariant data[..size + i] == before + path[..i]
      {
        data[size + i] := path[i];
      }
      data[size + |path|] := 0;
      size := size + |path| + 1;
      assert data[..size] == before + path[..|path|] + [0];
      assert path[..|path|] == path;
    }

    /**
     Appends one path with its terminator. The offset handed out is where the
     pool ended before, and everything stored earlier stays where it was. It is
     refused exactly when offsets would no longer fit 32 bits, or when memory
     for a bigger pool is short.
     */
    method Append(path: seq<Byte>) returns (r: Stored)
      requires Valid()
      modifies this, data
      ensures Valid() && (data == old(data) || fresh(data))
      ensures !r.At? ==> Contents() == old(Contents())
      ensures r.At? ==> Contents() == old(Contents()) + path + [0] && r.offset == |old(Contents())|
      ensures r.Full? <==> |old(Contents())| + |path| + 1 >= TWO_32
      ensures r.NoMemory? ==> |old(Contents())| + |path| + 1 > old(data.Length)
      ensures data != old(data) ==> data.Length <= INITIAL_CAPACITY || data.Length < 2 * size
      ensures short == (old(short) || r.NoMemory?)
    {
      var needed := size + |path| + 1;
      if needed > TWO_32 - 1 {
        return Full;
      }
      if needed > data.Length {
        var newCapacity := if data.Length == 0 then INITIAL_CAPACITY else data.Length * 2;
        while newCapacity < needed
          invariant data.Length <= newCapacity && 0 < newCapacity < 2 * TWO_32
          invariant newCapacity <= INITIAL_CAPACITY || newCapacity < 2 * needed
        {
          newCapacity := newCapacity * 2;
        }
        var ok, grown := Grown(newCapacity);
        if !ok {
          return NoMemory;
        }
        data := grown;
      }
      r := At(size);
      CopyIn(path);
    }
  }

  /** The pool after appending `paths` in order. */
  function PoolOf(paths: seq<seq<Byte>>): seq<Byte> {
    Concat(Terminated(paths))
  }

  function Terminated(paths: seq<seq<Byte>>): (cells: seq<seq<Byte>>)
    ensures |cells| == |paths| && forall i :: 0 <= i < |paths| ==> cells[i] == paths[i] + [0]
  {
    seq(|paths|, i requires 0 <= i < |paths| => paths[i] + [0])
  }

  /** The offset handed out for `paths[k]`. */
  function OffsetOf(paths: seq<seq<Byte>>, k: nat): nat
    requires k <= |paths|
  {
    CellStart(Terminated(paths), k)
  }

  /** `PoolOf` and `OffsetOf` are what `Append` builds and returns, one call at a time. */
  lemma {:induction false} PoolOfAppend(paths: seq<seq<Byte>>, path: seq<Byte>)
    ensures PoolOf(paths + [path]) == PoolOf(paths) + path + [0]
    ensures OffsetOf(paths + [path], |paths|) == |PoolOf(paths)|
    ensures forall k :: 0 <= k <= |paths| ==> OffsetOf(paths + [path], k) == OffsetOf(paths, k)
  {
    var cells := Terminated(paths + [path]);
    assert cells[..|cells| - 1] == Terminated(paths);
    ConcatLength(Terminated(paths));
    forall k | 0 <= k <= |paths| ensures OffsetOf(paths + [path], k) == OffsetOf(paths, k) {
      SameStart(cells, Terminated(paths), k);
    }
  }

  lemma {:induction false} StartsAscend(cells: seq<seq<Byte>>, j: nat, k: nat)
    requires j < k <= |cells|
    ensures CellStart(cells, j) + |cells[j]| <= CellStart(cells, k)
  {
    if j + 1 < k {
      StartsAscend(cells, j, k - 1);
    }
  }

  /**
   Over any run of appends: every offset ever handed out still denotes its
   string, and no two strings share a byte.
   */
  lemma {:induction false} EveryOffsetStillHolds(paths: seq<seq<Byte>>, j: nat, k: nat)
    requires forall i :: 0 <= i < |paths| ==> NoNul(paths[i])
    requires j < |paths| && k < |paths|
    ensures StringAt(PoolOf(paths), OffsetOf(paths, k), paths[k])
    ensures j < k ==> OffsetOf(paths, j) + |paths[j]| < OffsetOf(paths, k)
  {
    var cells := Terminated(paths);
    CellAt(cells, k);
    var at := OffsetOf(paths, k);
    var stored := PoolOf(paths)[at..at + |paths[k]| + 1];
    assert stored == paths[k] + [0];
    assert PoolOf(paths)[at..at + |paths[k]|] == stored[..|paths[k]|];
    assert PoolOf(paths)[at + |paths[k]|] == stored[|paths[k]|];
    if j < k {
      StartsAscend(cells, j, k);
    }
  }

  /** A string stays where it is while the pool grows behind it. */
  lemma {:induction false} StringKept(pool: seq<Byte>, more: seq<Byte>, at: nat, text: seq<Byte>)
    requires pool <= more && StringAt(pool, at, text)
    ensures StringAt(more, at, text)
  {
    assert more[at..at + |text|] == pool[at..at + |text|];
  }

  /** The C string a pointer into the pool denotes. */
  function CString(pool: seq<Byte>, at: nat): seq<Byte>
    requires at <= |pool|
  {
    UpToNul(pool[at..])
  }

  lemma {:induction false} CStringIs(pool: seq<Byte>, at: nat, text: seq<Byte>)
    requires StringAt(pool, at, text)
    ensures CString(pool, at) == text
  {
    var rest := pool[at + |text|..];
    assert pool[at..] == text + rest;
    UpToNulStops(text, rest);
  }
}
