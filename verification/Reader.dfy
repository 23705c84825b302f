/** The validating reader of a snapshot file. */
module Reader {
  import opened Bytes
  import opened DumpFormat
  import opened PathPool

  /** Everything a restore takes out of a snapshot file except the payloads. */
  datatype Snapshot = Snapshot(header: Header, vmas: seq<Vma>, xstate: seq<Byte>, fds: seq<Fd>, pool: seq<Byte>)

  const STDERR: int := 2

  // ----- what an acceptable file is, in unbounded arithmetic -----

  predicate Forbidden(flags: U32) {
    HasBit(flags, O_CREAT) || HasBit(flags, O_EXCL) || HasBit(flags, O_TRUNC) || HasBit(flags, O_TMPFILE_BIT)
  }

  predicate PathOk(e: Fd, pool: seq<Byte>) {
    && 0 < e.pathLen < PATH_MAX
    && e.pathOffset + e.pathLen < |pool|
    && StringAt(pool, e.pathOffset, pool[e.pathOffset..e.pathOffset + e.pathLen])
  }

  predicate EntryOk(fds: seq<Fd>, pool: seq<Byte>, i: nat)
    requires i < |fds|
  {
    && fds[i].fd > STDERR
    && (i > 0 ==> fds[i].fd > fds[i - 1].fd)
    && (fds[i].dupOf != -1 ==> exists j :: 0 <= j < i && fds[j].fd == fds[i].dupOf)
    && !Forbidden(fds[i].flags)
    && PathOk(fds[i], pool)
  }

  predicate FdTableOk(fds: seq<Fd>, pool: seq<Byte>) {
    forall i :: 0 <= i < |fds| ==> EntryOk(fds, pool, i)
  }

  predicate HeaderOk(h: Header, fileSize: nat) {
    && h.magic == MAGIC
    && h.version == FORMAT_VERSION
    && h.vmaCount > 0
    && h.kernelMapCount <= MAX_KERNEL_MAPS
    && 0 < h.exePathLen < PATH_MAX
    && XSTATE_MIN_SIZE <= h.xstateSize < XSTATE_MAX_SIZE
    && h.xstateOffset + h.xstateSize <= fileSize
    && h.vmaTableOffset + VMA_SIZE * h.vmaCount <= fileSize
    && h.dataOffset <= fileSize
  }

  /** The payload test is the one check left in wrapping arithmetic. */
  predicate VmaOk(v: Vma, fileSize: nat) {
    v.prot <= PROT_RWX && Add64(v.dataOffset, v.size) <= fileSize
  }

  predicate FdRegionsFit(h: Header, fileSize: nat) {
    && h.fdTableOffset + FD_SIZE * h.fdCount <= fileSize
    && h.pathPoolOffset + h.pathPoolSize <= fileSize
    && h.pathPoolSize > 0
  }

  function VmasIn(file: seq<Byte>, h: Header): (vmas: seq<Vma>)
    requires h.vmaTableOffset + VMA_SIZE * h.vmaCount <= |file|
    ensures |vmas| == h.vmaCount
  {
    seq(h.vmaCount, i requires 0 <= i < h.vmaCount => VmaAt(file, h.vmaTableOffset + VMA_SIZE * i))
  }

  function FdsIn(file: seq<Byte>, h: Header): (fds: seq<Fd>)
    requires h.fdTableOffset + FD_SIZE * h.fdCount <= |file|
    ensures |fds| == h.fdCount
  {
    seq(h.fdCount, i requires 0 <= i < h.fdCount => FdAt(file, h.fdTableOffset + FD_SIZE * i))
  }

  function PoolIn(file: seq<Byte>, h: Header): seq<Byte>
    requires h.pathPoolOffset + h.pathPoolSize <= |file|
  {
    file[h.pathPoolOffset..h.pathPoolOffset + h.pathPoolSize]
  }

  predicate Accepts(file: seq<Byte>) {
    && |file| >= HEADER_SIZE
    && var h := HeaderAt(file);
    && HeaderOk(h, |file|)
    && VmaTableOk(file, h)
    && (h.fdCount > 0 ==> FdRegionsFit(h, |file|) && FdTableOk(FdsIn(file, h), PoolIn(file, h)))
  }

  function Contents(file: seq<Byte>): (s: Snapshot)
    requires Accepts(file)
    ensures FdTableOk(s.fds, s.pool) && s.header.Shaped() && s.header.kernelMapCount <= MAX_KERNEL_MAPS
  {
    var h := HeaderAt(file);
    Snapshot(
      h.(exePath := h.exePath[h.exePathLen := 0]),
      VmasIn(file, h),
      file[h.xstateOffset..h.xstateOffset + h.xstateSize],
      if h.fdCount == 0 then [] else FdsIn(file, h),
      if h.fdCount == 0 then [] else PoolIn(file, h))
  }

  // ----- the reader itself -----

  /** Overflow-safe: the sum of the two operands is never formed, and the difference does not wrap behind the first test. */
  predicate FitsInFile(offset: U64, size: U64, fileSize: U64): (r: bool)
    ensures r <==> offset + size <= fileSize
  {
    size <= fileSize && offset <= Sub64(fileSize, size)
  }

  /** Positions the stream and reads; a position of 2^63 or more is negative to the seek. */
  method SeekAndRead(file: seq<Byte>, offset: U64, size: nat) returns (ok: bool, bytes: seq<Byte>)
    ensures ok <==> offset < TWO_63 && (size == 0 || offset + size <= |file|)
    ensures ok && size > 0 ==> bytes == file[offset..offset + size]
    ensures ok && size == 0 ==> bytes == []
  {
    if offset >= TWO_63 {
      return false, [];
    }
    if size == 0 {
      return true, [];
    }
    if offset + size > |file| {
      return false, [];
    }
    return true, file[offset..offset + size];
  }

  /** Binary search for a descriptor number among the first `count` entries. */
  method BinarySearch(key: int, fds: seq<Fd>, count: nat) returns (found: bool)
    requires count <= |fds|
    requires forall i, j :: 0 <= i < j < count ==> fds[i].fd < fds[j].fd
    ensures found <==> exists k :: 0 <= k < count && fds[k].fd == key
  {
    var low, high := 0, count;
    while low < high
      invariant low <= high <= count
      invariant forall k :: 0 <= k < low ==> fds[k].fd < key
      invariant forall k :: high <= k < count ==> key < fds[k].fd
    {
      var middle := (low + high) / 2;
      if key < fds[middle].fd {
        high := middle;
      } else if key > fds[middle].fd {
        low := middle + 1;
      } else {
        return true;
      }
    }
    return false;
  }

  method HasNul(bytes: seq<Byte>) returns (found: bool)
    ensures found <==> !NoNul(bytes)
  {
    for i := 0 to |bytes|
      invariant forall k :: 0 <= k < i ==> bytes[k] != 0
    {
      if bytes[i] == 0 {
        return true;
      }
    }
    return false;
  }

  /** The test of one path: room for it and its terminator, then its shape. */
  method CheckPath(e: Fd, pool: seq<Byte>) returns (ok: bool)
    requires |pool| < TWO_64
    ensures ok <==> PathOk(e, pool)
  {
    if e.pathLen == 0 || e.pathLen >= PATH_MAX || e.pathOffset >= |pool| || e.pathLen >= Sub64(|pool|, e.pathOffset) {
      return false;
    }
    var path := pool[e.pathOffset..e.pathOffset + e.pathLen];
    var nul := HasNul(path);
    return pool[e.pathOffset + e.pathLen] == 0 && !nul;
  }

  lemma {:induction false} Ascending(fds: seq<Fd>, pool: seq<Byte>, i: nat, j: nat)
    requires i < j < |fds|
    requires forall k :: 0 <= k <= j ==> EntryOk(fds, pool, k)
    ensures fds[i].fd < fds[j].fd
  {
    assert EntryOk(fds, pool, j);
    if i < j - 1 {
      Ascending(fds, pool, i, j - 1);
    }
  }

  /** Accepts exactly the well-formed tables. */
  method CheckFdTable(fds: seq<Fd>, pool: seq<Byte>) returns (ok: bool)
    requires |pool| < TWO_64
    ensures ok <==> FdTableOk(fds, pool)
  {
    for i := 0 to |fds|
      invariant forall k :: 0 <= k < i ==> EntryOk(fds, pool, k)
    {
      var e := fds[i];
      if e.fd <= STDERR || (i > 0 && e.fd <= fds[i - 1].fd) {
        assert !EntryOk(fds, pool, i);
        return false;
      }
      if e.dupOf != -1 {
        forall a, b | 0 <= a < b < i ensures fds[a].fd < fds[b].fd { Ascending(fds, pool, a, b); }
        var found := BinarySearch(e.dupOf, fds, i);
        if !found {
          assert !EntryOk(fds, pool, i);
          return false;
        }
      }
      if Forbidden(e.flags) {
        assert !EntryOk(fds, pool, i);
        return false;
      }
      var pathOk := CheckPath(e, pool);
      if !pathOk {
        assert !EntryOk(fds, pool, i);
        return false;
      }
    }
    return true;
  }

  method ReadFdTable(file: seq<Byte>, h: Header) returns (ok: bool, fds: seq<Fd>, pool: seq<Byte>)
    requires |file| < TWO_63
    ensures ok <==> (h.fdCount > 0 ==> FdRegionsFit(h, |file|) && FdTableOk(FdsIn(file, h), PoolIn(file, h)))
    ensures ok ==> fds == (if h.fdCount == 0 then [] else FdsIn(file, h))
    ensures ok ==> pool == (if h.fdCount == 0 then [] else PoolIn(file, h))
  {
    fds, pool := [], [];
    if h.fdCount == 0 {
      return true, [], [];
    }
    var tableSize := h.fdCount * FD_SIZE;
    if !FitsInFile(h.fdTableOffset, tableSize, |file|) || !FitsInFile(h.pathPoolOffset, h.pathPoolSize, |file|)
       || h.pathPoolSize == 0 {
      return false, [], [];
    }
    var table;
    ok, table := SeekAndRead(file, h.fdTableOffset, tableSize);
    if !ok {
      return false, [], [];
    }
    ok, pool := SeekAndRead(file, h.pathPoolOffset, h.pathPoolSize);
    if !ok {
      return false, [], [];
    }
    fds := seq(h.fdCount, i requires 0 <= i < h.fdCount => FdAt(table, FD_SIZE * i));
    FdsOfTable(file, h, table, fds);
    ok := CheckFdTable(fds, pool);
  }

  lemma {:induction false} SameSlice(file: seq<Byte>, offset: nat, table: seq<Byte>, at: nat, width: nat)
    requires Holds(file, offset, table) && at + width <= |table|
    ensures file[offset + at..offset + at + width] == table[at..at + width]
  {
    HoldsInside(file, offset, table, at, table[at..at + width]);
  }

  lemma {:induction false} SameFd(file: seq<Byte>, offset: nat, table: seq<Byte>, at: nat)
    requires Holds(file, offset, table) && at + FD_SIZE <= |table|
    ensures FdAt(file, offset + at) == FdAt(table, at)
  {
    SameSlice(file, offset, table, at, 4);
    SameSlice(file, offset, table, at + 4, 4);
    SameSlice(file, offset, table, at + 8, 4);
    SameSlice(file, offset, table, at + 12, 4);
    SameSlice(file, offset, table, at + 16, 4);
    SameSlice(file, offset, table, at + 24, 8);
  }

  lemma {:induction false} SameVma(file: seq<Byte>, offset: nat, table: seq<Byte>, at: nat)
    requires Holds(file, offset, table) && at + VMA_SIZE <= |table|
    ensures VmaAt(file, offset + at) == VmaAt(table, at)
  {
    SameSlice(file, offset, table, at, 8);
    SameSlice(file, offset, table, at + 8, 8);
    SameSlice(file, offset, table, at + 16, 8);
    SameSlice(file, offset, table, at + 24, 8);
    SameSlice(file, offset, table, at + 32, 4);
    SameSlice(file, offset, table, at + 36, 4);
    SameSlice(file, offset, table, at + 40, 4);
    SameSlice(file, offset, table, at + 44, 4);
  }

  lemma {:induction false} FdsOfTable(file: seq<Byte>, h: Header, table: seq<Byte>, fds: seq<Fd>)
    requires |table| == FD_SIZE * h.fdCount && Holds(file, h.fdTableOffset, table)
    requires |fds| == h.fdCount && forall i :: 0 <= i < |fds| ==> fds[i] == FdAt(table, FD_SIZE * i)
    ensures fds == FdsIn(file, h)
  {
    hide FdAt;
    forall i | 0 <= i < |fds| ensures fds[i] == FdsIn(file, h)[i] {
      SameFd(file, h.fdTableOffset, table, FD_SIZE * i);
    }
  }

  /** The header tests in order, with the sums the code forms in 64 bits. */
  method CheckHeader(h: Header, fileSize: U64) returns (ok: bool)
    requires h.Shaped() && fileSize < TWO_63
    ensures HeaderOk(h, fileSize) ==> ok
    ensures ok ==> h.vmaCount > 0
    ensures ok && h.xstateOffset < TWO_63 && h.vmaTableOffset < TWO_63 ==> HeaderOk(h, fileSize)
  {
    if h.magic != MAGIC || h.version != FORMAT_VERSION || h.vmaCount == 0 || h.kernelMapCount > MAX_KERNEL_MAPS {
      return false;
    }
    if h.exePathLen == 0 || h.exePathLen >= PATH_MAX {
      return false;
    }
    if h.xstateSize < XSTATE_MIN_SIZE || h.xstateSize >= XSTATE_MAX_SIZE {
      return false;
    }
    if Add64(h.xstateOffset, h.xstateSize) > fileSize {
      return false;
    }
    var tableSize := h.vmaCount * VMA_SIZE;
    if Add64(h.vmaTableOffset, tableSize) > fileSize || h.dataOffset > fileSize {
      return false;
    }
    return true;
  }

  method CheckVmas(vmas: seq<Vma>, fileSize: U64) returns (ok: bool)
    ensures ok <==> forall i :: 0 <= i < |vmas| ==> VmaOk(vmas[i], fileSize)
  {
    for i := 0 to |vmas|
      invariant forall k :: 0 <= k < i ==> VmaOk(vmas[k], fileSize)
    {
      if vmas[i].prot > PROT_RWX || Add64(vmas[i].dataOffset, vmas[i].size) > fileSize {
        assert !VmaOk(vmas[i], fileSize);
        return false;
      }
    }
    return true;
  }

  lemma {:induction false} VmasOfTable(file: seq<Byte>, h: Header, table: seq<Byte>, vmas: seq<Vma>)
    requires |table| == VMA_SIZE * h.vmaCount && Holds(file, h.vmaTableOffset, table)
    requires |vmas| == h.vmaCount && forall i :: 0 <= i < |vmas| ==> vmas[i] == VmaAt(table, VMA_SIZE * i)
    ensures vmas == VmasIn(file, h)
  {
    hide VmaAt;
    forall i | 0 <= i < |vmas| ensures vmas[i] == VmasIn(file, h)[i] {
      SameVma(file, h.vmaTableOffset, table, VMA_SIZE * i);
    }
  }

  predicate VmaTableOk(file: seq<Byte>, h: Header) {
    && h.vmaTableOffset + VMA_SIZE * h.vmaCount <= |file|
    && forall i :: 0 <= i < h.vmaCount ==> VmaOk(VmasIn(file, h)[i], |file|)
  }

  method ReadVmaTable(file: seq<Byte>, h: Header) returns (ok: bool, vmas: seq<Vma>)
    requires h.vmaCount > 0 && |file| < TWO_63
    ensures ok <==> VmaTableOk(file, h)
    ensures ok ==> vmas == VmasIn(file, h)
  {
    var table;
    ok, table := SeekAndRead(file, h.vmaTableOffset, h.vmaCount * VMA_SIZE);
    if !ok {
      return false, [];
    }
    vmas := seq(h.vmaCount, i requires 0 <= i < h.vmaCount => VmaAt(table, VMA_SIZE * i));
    VmasOfTable(file, h, table, vmas);
    ok := CheckVmas(vmas, |file|);
  }

  /**
   Accepts exactly the files `Accepts` describes, and returns what they hold.
   The sums that could wrap cost nothing: an offset large enough to wrap one is
   refused by the seek that follows.
   */
  method ReadSnapshotMetadata(file: seq<Byte>) returns (r: Option<Snapshot>)
    requires |file| < TWO_63
    ensures r.Some? <==> Accepts(file)
    ensures r.Some? ==> r.value == Contents(file)
  {
    if |file| < HEADER_SIZE {
      return None;
    }
    var h := HeaderAt(file);
    var ok := CheckHeader(h, |file|);
    if !ok {
      return None;
    }
    var vmas, xstate, fds, pool;
    ok, vmas := ReadVmaTable(file, h);
    if !ok {
      return None;
    }
    ok, xstate := SeekAndRead(file, h.xstateOffset, h.xstateSize);
    if !ok {
      return None;
    }
    ok, fds, pool := ReadFdTable(file, h);
    if !ok {
      return None;
    }
    return Some(Snapshot(h.(exePath := h.exePath[h.exePathLen := 0]), vmas, xstate, fds, pool));
  }

  // ----- what acceptance means -----

  /** The flags that would create, truncate or replace a file, as numbers. */
  lemma {:induction false} ForbiddenExactly(flags: U32)
    ensures Forbidden(flags)
       <==> (flags / 0x40) % 2 == 1 || (flags / 0x80) % 2 == 1 || (flags / 0x200) % 2 == 1 || (flags / 0x40_0000) % 2 == 1
  {
  }

  /** The tests of the header, as numbers. */
  lemma {:induction false} HeaderOkExactly(h: Header, fileSize: nat)
    requires h.Shaped()
    ensures HeaderOk(h, fileSize) <==>
      && Spells(h.magic, "KSNAPDMP") && h.version == 4
      && 1 <= h.vmaCount && h.kernelMapCount <= 4 && 1 <= h.exePathLen <= 4095 && 576 <= h.xstateSize <= 65535
      && h.xstateOffset + h.xstateSize <= fileSize && h.vmaTableOffset + 48 * h.vmaCount <= fileSize && h.dataOffset <= fileSize
  {
    assert Spells(MAGIC, "KSNAPDMP");
    SameName(MAGIC, "KSNAPDMP", h.magic);
  }

  /** No accepted file asks to open anything with a flag that creates, truncates or replaces. */
  lemma {:induction false} HarmlessFlags(file: seq<Byte>, i: nat)
    requires Accepts(file) && i < |Contents(file).fds|
    ensures var flags := Contents(file).fds[i].flags;
      (flags / 0x40) % 2 == 0 && (flags / 0x80) % 2 == 0 && (flags / 0x200) % 2 == 0 && (flags / 0x40_0000) % 2 == 0
  {
    hide HeaderAt, HeaderOk, VmaTableOk, Forbidden, PathOk, FdsIn;
    var s := Contents(file);
    assert EntryOk(s.fds, s.pool, i);
    ForbiddenExactly(s.fds[i].flags);
  }

  /** One such flag anywhere in its table makes a file refused. */
  lemma {:induction false} HarmfulRefused(file: seq<Byte>, i: nat)
    requires |file| >= HEADER_SIZE
    requires var h := HeaderAt(file); h.fdTableOffset + FD_SIZE * h.fdCount <= |file| && i < h.fdCount
    requires var flags := FdsIn(file, HeaderAt(file))[i].flags;
      (flags / 0x40) % 2 == 1 || (flags / 0x80) % 2 == 1 || (flags / 0x200) % 2 == 1 || (flags / 0x40_0000) % 2 == 1
    ensures !Accepts(file)
  {
    hide HeaderAt, HeaderOk, VmaTableOk, FdTableOk, FdRegionsFit;
    if Accepts(file) {
      HarmlessFlags(file, i);
    }
  }

  /** An accepted mapping asks for no protection beyond read, write and execute. */
  lemma {:induction false} KnownProtections(file: seq<Byte>, i: nat)
    requires Accepts(file) && i < |Contents(file).vmas|
    ensures Contents(file).vmas[i].prot <= 7
  {
    hide HeaderAt, HeaderOk, FdTableOk;
    assert VmaOk(VmasIn(file, HeaderAt(file))[i], |file|);
  }

  /** Where a chain of duplicates ends: the entry that is opened by path. */
  function Root(fds: seq<Fd>, pool: seq<Byte>, i: nat): (r: nat)
    requires i < |fds| && FdTableOk(fds, pool)
    ensures r <= i && fds[r].dupOf == -1
    ensures fds[i].dupOf == -1 ==> r == i
    decreases i
  {
    if fds[i].dupOf == -1 then i
    else
      assert EntryOk(fds, pool, i);
      var j := IndexOf(fds, fds[i].dupOf, i);
      Root(fds, pool, j)
  }

  /** The entry before `bound` that holds descriptor `fd`. */
  function IndexOf(fds: seq<Fd>, fd: int, bound: nat): (j: nat)
    requires bound <= |fds| && exists k :: 0 <= k < bound && fds[k].fd == fd
    ensures j < bound && fds[j].fd == fd
  {
    if fds[bound - 1].fd == fd then bound - 1 else IndexOf(fds, fd, bound - 1)
  }

  lemma {:induction false} Ordered(fds: seq<Fd>, pool: seq<Byte>)
    requires FdTableOk(fds, pool)
    ensures forall i, j :: 0 <= i < j < |fds| ==> fds[i].fd < fds[j].fd
  {
    forall i, j | 0 <= i < j < |fds| ensures fds[i].fd < fds[j].fd {
      Ascending(fds, pool, i, j);
    }
  }

  /** An accepted table names every descriptor once, above stdio, and every path is a string of the pool. */
  lemma {:induction false} AcceptedTable(fds: seq<Fd>, pool: seq<Byte>, i: nat)
    requires FdTableOk(fds, pool) && i < |fds|
    ensures fds[i].fd > STDERR && forall j :: 0 <= j < i ==> fds[j].fd < fds[i].fd
    ensures fds[i].pathOffset + fds[i].pathLen < |pool|
    ensures CString(pool, fds[i].pathOffset) == pool[fds[i].pathOffset..fds[i].pathOffset + fds[i].pathLen]
    ensures 0 < |CString(pool, fds[i].pathOffset)| == fds[i].pathLen
    ensures fds[i].dupOf != -1 ==> 2 < fds[i].dupOf < fds[i].fd
  {
    assert EntryOk(fds, pool, i);
    Ordered(fds, pool);
    CStringIs(pool, fds[i].pathOffset, pool[fds[i].pathOffset..fds[i].pathOffset + fds[i].pathLen]);
    if fds[i].dupOf != -1 {
      var j :| 0 <= j < i && fds[j].fd == fds[i].dupOf;
      assert EntryOk(fds, pool, j);
    }
  }

  /**
   The payload test compares a wrapped sum. An accepted payload lies inside the
   file exactly when its end does not wrap; a caller can test that beforehand.
   */
  lemma {:induction false} PayloadInsideExactly(v: Vma, fileSize: nat)
    requires fileSize < TWO_63 && VmaOk(v, fileSize)
    ensures v.dataOffset + v.size <= fileSize <==> v.size < TWO_64 - v.dataOffset
  {
  }

  /** A mapping the test lets through although its payload ends past the file. */
  lemma {:induction false} PayloadTestCanWrap()
    ensures var v := Vma(0x40_0000, 0x1000, 0, TWO_64 - 0x1000, PROT_READ, 2, 0, 0);
            VmaOk(v, 0x10_0000) && v.dataOffset + v.size > 0x10_0000
  {
  }
}
