/** Where everything in a snapshot file goes, and the bytes the whole file comes to. */
module Layout {
  import opened Bytes
  import opened DumpFormat
  import opened Maps
  import opened Target
  import opened Collector

  const NO_MAP: KernelMap := KernelMap(0, 0, Zeros(KERNEL_MAP_NAME_LEN))

  function PaddedMaps(maps: seq<KernelMap>): (r: seq<KernelMap>)
    requires |maps| <= MAX_KERNEL_MAPS
    ensures |r| == MAX_KERNEL_MAPS
  {
    maps + seq(MAX_KERNEL_MAPS - |maps|, _ => NO_MAP)
  }

  function SizeSum(vmas: seq<Vma>): nat {
    if vmas == [] then 0 else SizeSum(vmas[..|vmas| - 1]) + vmas[|vmas| - 1].size
  }

  /** Payloads follow one another in table order from `base`. */
  predicate Laid(vmas: seq<Vma>, base: nat) {
    forall i :: 0 <= i < |vmas| ==> vmas[i].dataOffset == base + SizeSum(vmas[..i])
  }

  function Payload(vmas: seq<Vma>, mem: map<int, Byte>): (bytes: seq<Byte>)
    ensures |bytes| == SizeSum(vmas)
  {
    if vmas == [] then []
    else
      var last := vmas[|vmas| - 1];
      Payload(vmas[..|vmas| - 1], mem) + MemBytes(mem, last.start, last.size)
  }

  predicate AllMapped(vmas: seq<Vma>, mem: map<int, Byte>) {
    forall i :: 0 <= i < |vmas| ==> Mapped(mem, vmas[i].start, vmas[i].size)
  }

  /** The tables and areas of one snapshot, before it is a file. `done` counts the linked descriptors. */
  datatype Parts = Parts(
    regs: seq<U64>,
    exe: seq<Byte>,
    kernelMaps: seq<KernelMap>,
    vmas: seq<Vma>,
    fds: seq<Fd>,
    pool: seq<Byte>,
    xstate: seq<Byte>,
    done: nat)
  {
    predicate Valid() {
      && |regs| == REGS_COUNT
      && 0 < |exe| < PATH_MAX
      && |kernelMaps| <= MAX_KERNEL_MAPS
      && (forall i :: 0 <= i < |kernelMaps| ==> |kernelMaps[i].name| == KERNEL_MAP_NAME_LEN)
      && 0 < |vmas| < TWO_32
      && |fds| < TWO_32
      && |pool| < TWO_32
      && XSTATE_MIN_SIZE <= |xstate| < XSTATE_MAX_SIZE
    }

    function DataOffset(): nat {
      HEADER_SIZE + VMA_SIZE * |vmas| + FD_SIZE * |fds| + |pool| + |xstate|
    }
  }

  /** The header of a snapshot, with every offset computed in unbounded arithmetic. */
  function HeaderOf(p: Parts): (h: Header)
    requires p.Valid()
    ensures h.Shaped()
  {
    var fdTable := HEADER_SIZE + VMA_SIZE * |p.vmas|;
    var pool := fdTable + FD_SIZE * |p.fds|;
    var xstate := pool + |p.pool|;
    Header(MAGIC, FORMAT_VERSION, |p.vmas|, HEADER_SIZE, pool, |p.pool|, xstate + |p.xstate|,
           |p.exe|, p.exe + Zeros(PATH_MAX - |p.exe|), |p.kernelMaps|, PaddedMaps(p.kernelMaps),
           p.regs, xstate, |p.xstate|, fdTable, |p.fds|)
  }

  /** Everything in front of the payloads. */
  function TablesOf(p: Parts): seq<Byte>
    requires p.Valid()
  {
    HeaderBytes(HeaderOf(p)) + VmaTable(p.vmas) + FdTable(p.fds) + p.pool + p.xstate
  }

  function FileOf(p: Parts, payload: seq<Byte>): seq<Byte>
    requires p.Valid()
  {
    TablesOf(p) + payload
  }

  lemma {:induction false} TablesLength(p: Parts)
    requires p.Valid()
    ensures |TablesOf(p)| == p.DataOffset()
  {
    HeaderCellStarts(HeaderOf(p), HeaderCells(HeaderOf(p)));
    VmaTableSize(p.vmas);
    FdTableSize(p.fds);
  }

  // ----- a snapshot of a process -----

  const ADDRESS_LIMIT: nat := 0x8000_0000_0000
  const PAGE_SIZE: nat := 4096

  /**
   The listing is in address order, page by page, and what is copied lies below
   the user address limit. Other lines may lie above it, as `[vsyscall]` does.
   */
  predicate LinesOrdered(lines: seq<RawLine>) {
    && |lines| < TWO_32
    && (forall i :: 0 <= i < |lines| && lines[i].Parsed? ==>
          lines[i].line.start % PAGE_SIZE == 0 && lines[i].line.end % PAGE_SIZE == 0)
    && (forall i :: 0 <= i < |lines| && Is(lines[i], VmaDump) ==> lines[i].line.end <= ADDRESS_LIMIT)
    && (forall i, j :: 0 <= i < j < |lines| && lines[i].Parsed? && lines[j].Parsed? ==>
          lines[i].line.end <= lines[j].line.start)
  }

  const VSYSCALL: seq<Byte> := [91, 118, 115, 121, 115, 99, 97, 108, 108, 93] // "[vsyscall]"

  /** The line every x86-64 listing may end with; it is skipped, and does not disturb the order. */
  const VSYSCALL_LINE: ParsedLine := MapsLine(0xFFFF_FFFF_FF60_0000, 0xFFFF_FFFF_FF60_1000, 0, "--xp", VSYSCALL)

  lemma {:induction false} VsyscallFits(lines: seq<RawLine>)
    requires LinesOrdered(lines) && |lines| + 1 < TWO_32
    requires forall i :: 0 <= i < |lines| && lines[i].Parsed? ==> lines[i].line.end <= VSYSCALL_LINE.start
    ensures LinesOrdered(lines + [Parsed(VSYSCALL_LINE)])
    ensures ClassifyMapsLine(VSYSCALL_LINE) == VmaSkipUnreadable
  {
    assert VSYSCALL[2] != VVAR[2] && |VSYSCALL| != |VDSO|;
    assert ClassifyMapsLine(VSYSCALL_LINE) == VmaSkipUnreadable;
    hide ClassifyMapsLine;
    var more := lines + [Parsed(VSYSCALL_LINE)];
    forall i | 0 <= i < |more| && Is(more[i], VmaDump) ensures more[i].line.end <= ADDRESS_LIMIT {
      assert i < |lines| && more[i] == lines[i];
    }
  }

  /** What the kernel guarantees about a stopped process. */
  predicate ImageOk(image: Image) {
    && |image.regs| == REGS_COUNT
    && |image.exe| < PATH_MAX && NoNul(image.exe)
    && LinesOrdered(image.lines)
    && |image.fds| < TWO_32
    && FdsConsistent(image)
  }

  /** The parts describe this process: its mappings, its regular files, its state. */
  ghost predicate Describes(p: Parts, image: Image) {
    && p.Valid()
    && p.regs == image.regs && p.exe == image.exe && p.xstate == image.xstate
    && KernelMapsOf(p.kernelMaps, OfClass(image.lines, VmaKernel))
    && RecordsAll(p.vmas, OfClass(image.lines, VmaDump), p.pool)
    && Laid(p.vmas, p.DataOffset())
    && AllMapped(p.vmas, image.mem)
    && FdsCollected(image, p.fds, p.pool)
    && FdsLinked(image, p.fds, p.done)
  }

  /** `file` is a complete snapshot of the process; `exact` when every shared file was found. */
  ghost predicate SnapshotOf(file: seq<Byte>, image: Image, exact: bool) {
    exists p :: Describes(p, image) && file == FileOf(p, Payload(p.vmas, image.mem)) && (exact ==> p.done == |p.fds|)
  }

  // ----- sizes -----

  lemma {:induction false} DumpedBelow(lines: seq<RawLine>, limit: nat)
    requires LinesOrdered(lines)
    requires forall i :: 0 <= i < |lines| && Is(lines[i], VmaDump) ==> lines[i].line.end <= limit
    ensures TotalSize(OfClass(lines, VmaDump)) <= limit
  {
    if lines != [] {
      var shorter, last := lines[..|lines| - 1], lines[|lines| - 1];
      if Is(last, VmaDump) {
        DumpedBelow(shorter, last.line.start);
        TotalSizeStep(OfClass(shorter, VmaDump), last.line);
      } else {
        DumpedBelow(shorter, limit);
        assert OfClass(lines, VmaDump) == OfClass(shorter, VmaDump);
      }
    }
  }

  lemma {:induction false} SizesAgree(vmas: seq<Vma>, lines: seq<ParsedLine>, pool: seq<Byte>)
    requires RecordsAll(vmas, lines, pool)
    ensures SizeSum(vmas) == TotalSize(lines)
  {
    if vmas != [] {
      var n := |vmas| - 1;
      assert forall i :: 0 <= i < n ==> Records(vmas[..n][i], lines[..n][i], pool);
      SizesAgree(vmas[..n], lines[..n], pool);
      assert Records(vmas[n], lines[n], pool);
    }
  }

  lemma {:induction false} SizeSumPrefix(vmas: seq<Vma>, i: nat)
    requires i < |vmas|
    ensures SizeSum(vmas[..i]) + vmas[i].size == SizeSum(vmas[..i + 1]) <= SizeSum(vmas)
    decreases |vmas| - i
  {
    assert vmas[..i + 1][..i] == vmas[..i];
    if i + 1 < |vmas| {
      SizeSumPrefix(vmas, i + 1);
    } else {
      assert vmas[..i + 1] == vmas;
    }
  }

  lemma {:induction false} SizeSumSame(a: seq<Vma>, b: seq<Vma>)
    requires |a| == |b| && forall i :: 0 <= i < |a| ==> a[i].size == b[i].size
    ensures SizeSum(a) == SizeSum(b)
  {
    if a != [] {
      SizeSumSame(a[..|a| - 1], b[..|b| - 1]);
    }
  }

  lemma {:induction false} SliceOfPrefix(a: seq<Byte>, b: seq<Byte>, from: nat, to: nat)
    requires from <= to <= |a|
    ensures (a + b)[from..to] == a[from..to]
  {
  }

  lemma {:induction false} SliceOfSuffix(a: seq<Byte>, b: seq<Byte>)
    ensures (a + b)[|a|..|a| + |b|] == b
  {
  }

  /** The payload of entry `i`, found inside the payload area. */
  lemma {:induction false} PayloadSlice(vmas: seq<Vma>, mem: map<int, Byte>, i: nat, from: nat, to: nat)
    requires i < |vmas|
    requires from == SizeSum(vmas[..i]) && to == from + vmas[i].size
    ensures to <= SizeSum(vmas)
    ensures Payload(vmas, mem)[from..to] == MemBytes(mem, vmas[i].start, vmas[i].size)
  {
    var n := |vmas| - 1;
    var rest, last := vmas[..n], MemBytes(mem, vmas[n].start, vmas[n].size);
    assert Payload(vmas, mem) == Payload(rest, mem) + last;
    hide Payload, SizeSum, MemBytes;
    SizeSumPrefix(vmas, i);
    if i == n {
      SliceOfSuffix(Payload(rest, mem), last);
    } else {
      assert rest[..i] == vmas[..i] && rest[i] == vmas[i];
      PayloadSlice(rest, mem, i, from, to);
      SliceOfPrefix(Payload(rest, mem), last, from, to);
    }
  }
}
