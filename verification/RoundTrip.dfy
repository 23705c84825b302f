/** Every snapshot the dump completes is accepted by the reader and read back unchanged. */
module RoundTrip {
  import opened Bytes
  import opened DumpFormat
  import opened Maps
  import opened Fds
  import opened Target
  import opened SharedFiles
  import opened Collector
  import opened Layout
  import Reader

  /** The kernel drops the creation flags of a file right after it opened it; of a file that has a name, all of them. */
  predicate FlagsStripped(image: Image) {
    forall v :: v in image.fds && ClassifyFd(v) == FdDump && v.info.Some? ==> !Reader.Forbidden(v.info.value.flags)
  }

  lemma {:induction false} HoldsLonger(file: seq<Byte>, more: seq<Byte>, at: nat, part: seq<Byte>)
    requires Holds(file, at, part)
    ensures Holds(file + more, at, part)
  {
    assert (file + more)[at..at + |part|] == file[at..at + |part|];
  }

  lemma {:induction false} HoldsLast(before: seq<Byte>, part: seq<Byte>)
    ensures Holds(before + part, |before|, part)
  {
  }

  lemma {:induction false} FiveRegions(a: seq<Byte>, b: seq<Byte>, c: seq<Byte>, d: seq<Byte>, e: seq<Byte>)
    ensures var t := a + b + c + d + e;
      && Holds(t, 0, a) && Holds(t, |a|, b) && Holds(t, |a| + |b|, c)
      && Holds(t, |a| + |b| + |c|, d) && Holds(t, |a| + |b| + |c| + |d|, e)
  {
    HoldsLast([], a);
    assert [] + a == a;
    HoldsLast(a, b);
    HoldsLonger(a, b, 0, a);
    HoldsLast(a + b, c);
    HoldsLonger(a + b, c, 0, a);
    HoldsLonger(a + b, c, |a|, b);
    HoldsLast(a + b + c, d);
    HoldsLonger(a + b + c, d, 0, a);
    HoldsLonger(a + b + c, d, |a|, b);
    HoldsLonger(a + b + c, d, |a| + |b|, c);
    HoldsLast(a + b + c + d, e);
    HoldsLonger(a + b + c + d, e, 0, a);
    HoldsLonger(a + b + c + d, e, |a|, b);
    HoldsLonger(a + b + c + d, e, |a| + |b|, c);
    HoldsLonger(a + b + c + d, e, |a| + |b| + |c|, d);
  }

  /** The file holds each region at the offset the header records for it, and ends with the payloads. */
  predicate Regions(file: seq<Byte>, p: Parts, payload: seq<Byte>)
    requires p.Valid()
  {
    var h := HeaderOf(p);
    && Holds(file, 0, HeaderBytes(h))
    && Holds(file, h.vmaTableOffset, VmaTable(p.vmas))
    && Holds(file, h.fdTableOffset, FdTable(p.fds))
    && Holds(file, h.pathPoolOffset, p.pool)
    && Holds(file, h.xstateOffset, p.xstate)
    && Holds(file, h.dataOffset, payload)
    && |file| == h.dataOffset + |payload|
  }

  lemma {:induction false} TablesHeld(p: Parts, tables: seq<Byte>)
    requires p.Valid() && tables == TablesOf(p)
    ensures Regions(tables, p, [])
  {
    hide VmaTable, FdTable;
    var h := HeaderOf(p);
    HeaderCellStarts(h, HeaderCells(h));
    VmaTableSize(p.vmas);
    FdTableSize(p.fds);
    FiveRegions(HeaderBytes(h), VmaTable(p.vmas), FdTable(p.fds), p.pool, p.xstate);
  }

  lemma {:induction false} RegionsHeld(p: Parts, payload: seq<Byte>, file: seq<Byte>)
    requires p.Valid() && file == FileOf(p, payload)
    ensures Regions(file, p, payload)
  {
    hide HeaderOf, TablesOf, HeaderBytes, VmaTable, FdTable;
    var h, tables := HeaderOf(p), TablesOf(p);
    TablesHeld(p, tables);
    HoldsLonger(tables, payload, 0, HeaderBytes(h));
    HoldsLonger(tables, payload, h.vmaTableOffset, VmaTable(p.vmas));
    HoldsLonger(tables, payload, h.fdTableOffset, FdTable(p.fds));
    HoldsLonger(tables, payload, h.pathPoolOffset, p.pool);
    HoldsLonger(tables, payload, h.xstateOffset, p.xstate);
    HoldsLast(tables, payload);
  }

  lemma {:induction false} VmasReadBack(file: seq<Byte>, h: Header, vmas: seq<Vma>)
    requires h.vmaCount == |vmas| && Holds(file, h.vmaTableOffset, VmaTable(vmas))
    ensures h.vmaTableOffset + VMA_SIZE * |vmas| <= |file| && Reader.VmasIn(file, h) == vmas
  {
    hide VmaTable, VmaAt;
    VmaTableHeld(file, h.vmaTableOffset, vmas);
  }

  lemma {:induction false} FdsReadBack(file: seq<Byte>, h: Header, fds: seq<Fd>)
    requires h.fdCount == |fds| && Holds(file, h.fdTableOffset, FdTable(fds))
    ensures h.fdTableOffset + FD_SIZE * |fds| <= |file| && Reader.FdsIn(file, h) == fds
  {
    hide FdTable, FdAt;
    FdTableHeld(file, h.fdTableOffset, fds);
  }

  lemma {:induction false} CarriedPathOk(e: Fd, v: FdView, pool: seq<Byte>)
    requires Carries(e, v, pool) && ViewOk(v)
    ensures Reader.PathOk(e, pool) && e.fd > 2
  {
    assert v.link.value != [];
  }

  lemma {:induction false} CollectedEntryOk(image: Image, fds: seq<Fd>, pool: seq<Byte>, done: nat, i: nat)
    requires FdsConsistent(image) && FlagsStripped(image) && i < |fds|
    requires Sorted(fds) && FromSomeView(image, fds[i], pool) && FdsLinked(image, fds, done)
    ensures Reader.EntryOk(fds, pool, i)
  {
    var v :| v in image.fds && Carries(fds[i], v, pool);
    CarriedPathOk(fds[i], v, pool);
    if fds[i].dupOf != -1 {
      assert Canonical(image, fds, i);
      var least := Least(image, fds, i);
      assert fds[least].fd == fds[i].dupOf;
    }
  }

  lemma {:induction false} WrittenTableOk(image: Image, fds: seq<Fd>, pool: seq<Byte>, done: nat)
    requires FdsConsistent(image) && FlagsStripped(image)
    requires FdsCollected(image, fds, pool) && FdsLinked(image, fds, done)
    ensures Reader.FdTableOk(fds, pool)
    ensures fds != [] ==> pool != []
  {
    forall i | 0 <= i < |fds| ensures Reader.EntryOk(fds, pool, i) {
      CollectedEntryOk(image, fds, pool, done, i);
    }
    assert fds != [] ==> Reader.EntryOk(fds, pool, 0);
  }

  /** A complete description of a process, its payload and its file. */
  ghost predicate Written(p: Parts, image: Image, file: seq<Byte>) {
    ImageOk(image) && Describes(p, image) && Regions(file, p, Payload(p.vmas, image.mem))
  }

  lemma {:induction false} FileIsWritten(p: Parts, image: Image, file: seq<Byte>)
    requires ImageOk(image) && Describes(p, image) && file == FileOf(p, Payload(p.vmas, image.mem))
    ensures Written(p, image, file)
  {
    RegionsHeld(p, Payload(p.vmas, image.mem), file);
  }

  lemma {:induction false} FileSize(p: Parts, image: Image, file: seq<Byte>)
    requires Written(p, image, file)
    ensures |file| == p.DataOffset() + SizeSum(p.vmas) < TWO_63
    ensures SizeSum(p.vmas) == TotalSize(OfClass(image.lines, VmaDump))
  {
    hide HeaderBytes, VmaTable, FdTable, FdsCollected, FdsLinked, KernelMapsOf, RecordsAll;
    DumpedBelow(image.lines, ADDRESS_LIMIT);
    SizesAgree(p.vmas, OfClass(image.lines, VmaDump), p.pool);
  }

  lemma {:induction false} LaidInside(vmas: seq<Vma>, base: nat, fileSize: nat, i: nat)
    requires Laid(vmas, base) && i < |vmas| && fileSize == base + SizeSum(vmas)
    ensures vmas[i].dataOffset + vmas[i].size <= fileSize
  {
    SizeSumPrefix(vmas, i);
  }

  lemma {:induction false} RecordedProt(vmas: seq<Vma>, lines: seq<ParsedLine>, pool: seq<Byte>, i: nat)
    requires RecordsAll(vmas, lines, pool) && i < |vmas|
    ensures vmas[i].prot <= PROT_RWX
  {
    assert Records(vmas[i], lines[i], pool);
  }

  lemma {:induction false} WrittenVmasOk(vmas: seq<Vma>, lines: seq<ParsedLine>, pool: seq<Byte>, base: nat, fileSize: nat)
    requires RecordsAll(vmas, lines, pool) && Laid(vmas, base) && fileSize == base + SizeSum(vmas) < TWO_63
    ensures forall i :: 0 <= i < |vmas| ==> Reader.VmaOk(vmas[i], fileSize)
  {
    forall i | 0 <= i < |vmas| ensures Reader.VmaOk(vmas[i], fileSize) {
      LaidInside(vmas, base, fileSize, i);
      RecordedProt(vmas, lines, pool, i);
    }
  }

  lemma {:induction false} SameTerminator(h: Header, p: Parts)
    requires p.Valid() && h == HeaderOf(p)
    ensures h.(exePath := h.exePath[h.exePathLen := 0]) == h
  {
    assert h.exePath[h.exePathLen := 0] == h.exePath;
  }

  /** What the reader returns for a snapshot with these parts. */
  function ReadBack(p: Parts): Reader.Snapshot
    requires p.Valid()
  {
    Reader.Snapshot(HeaderOf(p), p.vmas, p.xstate, p.fds, if p.fds == [] then [] else p.pool)
  }

  /**
   The round trip: a completed snapshot passes every check of the reader, and
   the header, the mapping table, the extended state, the descriptor table and
   the path pool come back as they were written.
   */
  lemma {:induction false} WrittenIsAccepted(p: Parts, image: Image, file: seq<Byte>)
    requires Written(p, image, file) && FlagsStripped(image)
    ensures Reader.Accepts(file) && Reader.Contents(file) == ReadBack(p)
  {
    hide HeaderBytes, HeaderAt, VmaTable, FdTable, Payload, RecordsAll, FdsCollected, FdsLinked, Laid, AllMapped;
    hide KernelMapsOf, LinesOrdered, Reader.FdTableOk, Reader.VmasIn, Reader.FdsIn, Reader.Accepts, Reader.Contents;
    var h := HeaderOf(p);
    FileSize(p, image, file);
    HeaderRoundTrip(file, h);
    VmasReadBack(file, h, p.vmas);
    FdsReadBack(file, h, p.fds);
    WrittenTableOk(image, p.fds, p.pool, p.done);
    WrittenVmasOk(p.vmas, OfClass(image.lines, VmaDump), p.pool, p.DataOffset(), |file|);
    SameTerminator(h, p);
    ReadBackIs(p, file, h);
  }

  lemma {:induction false} ReadBackIs(p: Parts, file: seq<Byte>, h: Header)
    requires p.Valid() && h == HeaderOf(p) && h.(exePath := h.exePath[h.exePathLen := 0]) == h
    requires |file| >= HEADER_SIZE && HeaderAt(file) == h && Holds(file, h.xstateOffset, p.xstate)
    requires Reader.HeaderOk(h, |file|) && h.dataOffset <= |file|
    requires Reader.VmasIn(file, h) == p.vmas && forall i :: 0 <= i < |p.vmas| ==> Reader.VmaOk(p.vmas[i], |file|)
    requires Reader.FdRegionsFit(h, |file|) || |p.fds| == 0
    requires |p.fds| > 0 ==> Reader.FdsIn(file, h) == p.fds && Reader.PoolIn(file, h) == p.pool
    requires Reader.FdTableOk(p.fds, p.pool)
    ensures Reader.Accepts(file) && Reader.Contents(file) == ReadBack(p)
  {
  }

  /** Each mapping's payload, at the offset its table entry records, is the memory that was dumped. */
  lemma {:induction false} PayloadIsMemory(p: Parts, image: Image, file: seq<Byte>, i: nat)
    requires Written(p, image, file) && i < |p.vmas|
    ensures Holds(file, p.vmas[i].dataOffset, MemBytes(image.mem, p.vmas[i].start, p.vmas[i].size))
  {
    hide HeaderBytes, VmaTable, FdTable, FdsCollected, FdsLinked, KernelMapsOf, RecordsAll;
    PayloadHeld(file, p.vmas, image.mem, p.DataOffset(), i);
  }

  lemma {:induction false} PayloadHeld(file: seq<Byte>, vmas: seq<Vma>, mem: map<int, Byte>, base: nat, i: nat)
    requires Holds(file, base, Payload(vmas, mem)) && Laid(vmas, base) && i < |vmas|
    ensures Holds(file, vmas[i].dataOffset, MemBytes(mem, vmas[i].start, vmas[i].size))
  {
    var from := SizeSum(vmas[..i]);
    SizeSumPrefix(vmas, i);
    PayloadSlice(vmas, mem, i, from, from + vmas[i].size);
    HoldsInside(file, base, Payload(vmas, mem), from, MemBytes(mem, vmas[i].start, vmas[i].size));
  }

  /** Payloads are contiguous, in table order, and end with the file: everything from `dataOffset` on is memory. */
  lemma {:induction false} PayloadsContiguous(p: Parts, image: Image, file: seq<Byte>, i: nat)
    requires Written(p, image, file) && i < |p.vmas|
    ensures p.vmas[0].dataOffset == HeaderOf(p).dataOffset
    ensures i + 1 < |p.vmas| ==> p.vmas[i].dataOffset + p.vmas[i].size == p.vmas[i + 1].dataOffset
    ensures i + 1 == |p.vmas| ==> p.vmas[i].dataOffset + p.vmas[i].size == |file|
    ensures |file| - HeaderOf(p).dataOffset == TotalSize(OfClass(image.lines, VmaDump))
  {
    hide HeaderBytes, VmaTable, FdTable, FdsCollected, FdsLinked, KernelMapsOf, RecordsAll;
    FileSize(p, image, file);
    SizeSumPrefix(p.vmas, i);
    assert p.vmas[..0] == [];
    if i + 1 == |p.vmas| {
      assert p.vmas[..i + 1] == p.vmas;
    }
  }
}
