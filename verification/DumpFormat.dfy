/**
 The on-disk layout of one snapshot: the header, the mapping table and the
 descriptor table, each as the bytes of the C struct it is written from.
 */
module DumpFormat {
  import opened Bytes

  const PATH_MAX: nat := 4096
  const FORMAT_VERSION: nat := 4
  const MAX_KERNEL_MAPS: nat := 4
  const KERNEL_MAP_NAME_LEN: nat := 32
  const REGS_COUNT: nat := 27
  const XSTATE_MIN_SIZE: nat := 576
  const XSTATE_MAX_SIZE: nat := 65536
  const HEADER_SIZE: nat := 4592
  const VMA_SIZE: nat := 48
  const FD_SIZE: nat := 32

  /** "KSNAPDMP" */
  const MAGIC: seq<Byte> := [75, 83, 78, 65, 80, 68, 77, 80]

  const PROT_READ: nat := 1
  const PROT_WRITE: nat := 2
  const PROT_EXEC: nat := 4
  const PROT_RWX: nat := 7

  const O_CREAT: nat := 0x40
  const O_EXCL: nat := 0x80
  const O_TRUNC: nat := 0x200
  const O_CLOEXEC: nat := 0x8_0000
  const O_PATH: nat := 0x20_0000
  const O_TMPFILE_BIT: nat := 0x40_0000

  datatype KernelMap = KernelMap(start: U64, size: U64, name: seq<Byte>)

  datatype Header = Header(
    magic: seq<Byte>,
    version: U32,
    vmaCount: U32,
    vmaTableOffset: U64,
    pathPoolOffset: U64,
    pathPoolSize: U64,
    dataOffset: U64,
    exePathLen: U32,
    exePath: seq<Byte>,
    kernelMapCount: U32,
    kernelMaps: seq<KernelMap>,
    regs: seq<U64>,
    xstateOffset: U64,
    xstateSize: U32,
    fdTableOffset: U64,
    fdCount: U32)
  {
    /** The fixed array sizes of the C struct. */
    predicate Shaped() {
      && |magic| == 8
      && |exePath| == PATH_MAX
      && |kernelMaps| == MAX_KERNEL_MAPS
      && (forall i :: 0 <= i < MAX_KERNEL_MAPS ==> |kernelMaps[i].name| == KERNEL_MAP_NAME_LEN)
      && |regs| == REGS_COUNT
    }
  }

  datatype Vma = Vma(
    start: U64,
    size: U64,
    fileOffset: U64,
    dataOffset: U64,
    prot: U32,
    mapFlags: U32,
    pathOffset: U32,
    pathLen: U32)

  datatype Fd = Fd(
    fd: I32,
    dupOf: I32,
    flags: U32,
    pathOffset: U32,
    pathLen: U32,
    position: U64)

  // ----- struct to bytes -----

  function KernelMapBytes(k: KernelMap): seq<Byte> {
    Concat([Le(k.start, 8), Le(k.size, 8), k.name])
  }

  function KernelMapTable(maps: seq<KernelMap>): seq<Byte> {
    Concat(seq(|maps|, i requires 0 <= i < |maps| => KernelMapBytes(maps[i])))
  }

  function RegsBytes(regs: seq<U64>): seq<Byte> {
    Concat(seq(|regs|, i requires 0 <= i < |regs| => Le(regs[i], 8)))
  }

  /** The members of the struct in declaration order; 14 and 17 are the reserved words. */
  function HeaderCells(h: Header): seq<seq<Byte>> {
    [ h.magic,
      Le(h.version, 4),
      Le(h.vmaCount, 4),
      Le(h.vmaTableOffset, 8),
      Le(h.pathPoolOffset, 8),
      Le(h.pathPoolSize, 8),
      Le(h.dataOffset, 8),
      Le(h.exePathLen, 4),
      h.exePath,
      Le(h.kernelMapCount, 4),
      KernelMapTable(h.kernelMaps),
      RegsBytes(h.regs),
      Le(h.xstateOffset, 8),
      Le(h.xstateSize, 4),
      Le(0, 4),
      Le(h.fdTableOffset, 8),
      Le(h.fdCount, 4),
      Le(0, 4) ]
  }

  function HeaderBytes(h: Header): seq<Byte> {
    Concat(HeaderCells(h))
  }

  function VmaBytes(v: Vma): seq<Byte> {
    Concat([Le(v.start, 8), Le(v.size, 8), Le(v.fileOffset, 8), Le(v.dataOffset, 8),
            Le(v.prot, 4), Le(v.mapFlags, 4), Le(v.pathOffset, 4), Le(v.pathLen, 4)])
  }

  function VmaTable(vmas: seq<Vma>): seq<Byte> {
    Concat(seq(|vmas|, i requires 0 <= i < |vmas| => VmaBytes(vmas[i])))
  }

  function FdBytes(f: Fd): seq<Byte> {
    Concat([Le(Unsigned(f.fd), 4), Le(Unsigned(f.dupOf), 4), Le(f.flags, 4), Le(f.pathOffset, 4),
            Le(f.pathLen, 4), Le(0, 4), Le(f.position, 8)])
  }

  function FdTable(fds: seq<Fd>): seq<Byte> {
    Concat(seq(|fds|, i requires 0 <= i < |fds| => FdBytes(fds[i])))
  }

  // ----- bytes to struct, by the member offsets of the compiled struct -----

  function KernelMapAt(raw: seq<Byte>, at: nat): KernelMap
    requires at + 48 <= |raw|
  {
    KernelMap(U64At(raw, at), U64At(raw, at + 8), raw[at + 16..at + 48])
  }

  function HeaderAt(raw: seq<Byte>): (h: Header)
    requires |raw| >= HEADER_SIZE
    ensures h.Shaped()
  {
    Header(
      raw[0..8],
      U32At(raw, 8),
      U32At(raw, 12),
      U64At(raw, 16),
      U64At(raw, 24),
      U64At(raw, 32),
      U64At(raw, 40),
      U32At(raw, 48),
      raw[52..4148],
      U32At(raw, 4148),
      seq(4, i requires 0 <= i < 4 => KernelMapAt(raw, 4152 + 48 * i)),
      seq(27, i requires 0 <= i < 27 => U64At(raw, 4344 + 8 * i)),
      U64At(raw, 4560),
      U32At(raw, 4568),
      U64At(raw, 4576),
      U32At(raw, 4584))
  }

  function VmaAt(raw: seq<Byte>, at: nat): Vma
    requires at + VMA_SIZE <= |raw|
  {
    Vma(U64At(raw, at), U64At(raw, at + 8), U64At(raw, at + 16), U64At(raw, at + 24),
        U32At(raw, at + 32), U32At(raw, at + 36), U32At(raw, at + 40), U32At(raw, at + 44))
  }

  function FdAt(raw: seq<Byte>, at: nat): Fd
    requires at + FD_SIZE <= |raw|
  {
    Fd(Signed(U32At(raw, at)), Signed(U32At(raw, at + 4)), U32At(raw, at + 8),
       U32At(raw, at + 12), U32At(raw, at + 16), U64At(raw, at + 24))
  }

  // ----- one cell of a struct, found in any bytes that contain the struct -----

  /** `raw` holds `part` at `at`. */
  predicate Holds(raw: seq<Byte>, at: nat, part: seq<Byte>) {
    at + |part| <= |raw| && raw[at..at + |part|] == part
  }

  lemma {:induction false} HoldsInside(raw: seq<Byte>, at: nat, part: seq<Byte>, inner: nat, piece: seq<Byte>)
    requires Holds(raw, at, part) && Holds(part, inner, piece)
    ensures Holds(raw, at + inner, piece)
  {
    var got := raw[at + inner..at + inner + |piece|];
    forall j | 0 <= j < |piece| ensures got[j] == piece[j] {
      assert part[inner + j] == part[inner..inner + |piece|][j];
      assert raw[at + (inner + j)] == raw[at..at + |part|][inner + j];
    }
    assert got == piece;
  }

  lemma {:induction false} HoldsCell(raw: seq<Byte>, at: nat, cells: seq<seq<Byte>>, k: nat)
    requires k < |cells| && Holds(raw, at, Concat(cells))
    ensures Holds(raw, at + CellStart(cells, k), cells[k])
  {
    CellAt(cells, k);
    HoldsInside(raw, at, Concat(cells), CellStart(cells, k), cells[k]);
  }

  lemma {:induction false} HoldsWord(raw: seq<Byte>, at: nat, width: nat, x: nat)
    requires width == 4 || width == 8
    requires x < (if width == 4 then TWO_32 else TWO_64)
    requires Holds(raw, at, Le(x, width))
    ensures width == 4 ==> U32At(raw, at) == x
    ensures width == 8 ==> U64At(raw, at) == x
  {
    WordAt(raw, at, width, x);
  }

  lemma {:induction false} HoldsField(raw: seq<Byte>, at: nat, cells: seq<seq<Byte>>, k: nat, start: nat, width: nat, x: nat)
    requires k < |cells| && Holds(raw, at, Concat(cells)) && CellStart(cells, k) == start
    requires width == 4 || width == 8
    requires x < (if width == 4 then TWO_32 else TWO_64) && cells[k] == Le(x, width)
    ensures Holds(raw, at + start, Le(x, width))
    ensures width == 4 ==> U32At(raw, at + start) == x
    ensures width == 8 ==> U64At(raw, at + start) == x
  {
    HoldsCell(raw, at, cells, k);
    HoldsWord(raw, at + start, width, x);
  }

  /** Row `i` of a table whose rows are `width` bytes wide. */
  lemma {:induction false} HoldsRow(raw: seq<Byte>, at: nat, rows: seq<seq<Byte>>, width: nat, i: nat)
    requires i < |rows| && Holds(raw, at, Concat(rows))
    requires forall k :: 0 <= k < |rows| ==> |rows[k]| == width
    ensures Holds(raw, at + width * i, rows[i])
  {
    HoldsCell(raw, at, rows, i);
    UniformStart(rows, width, i);
  }

  lemma {:induction false} TableLength(rows: seq<seq<Byte>>, width: nat)
    requires forall k :: 0 <= k < |rows| ==> |rows[k]| == width
    ensures |Concat(rows)| == width * |rows|
  {
    ConcatLength(rows);
    UniformStart(rows, width, |rows|);
  }

  // ----- struct sizes -----

  lemma {:induction false} KernelMapSize(k: KernelMap)
    requires |k.name| == KERNEL_MAP_NAME_LEN
    ensures |KernelMapBytes(k)| == 48
  {
    var cells := [Le(k.start, 8), Le(k.size, 8), k.name];
    ConcatLength(cells);
    assert CellStart(cells, 1) == 8;
    assert CellStart(cells, 2) == 16;
  }

  lemma {:induction false} VmaSize(v: Vma)
    ensures |VmaBytes(v)| == VMA_SIZE
  {
    var cells := [Le(v.start, 8), Le(v.size, 8), Le(v.fileOffset, 8), Le(v.dataOffset, 8),
                  Le(v.prot, 4), Le(v.mapFlags, 4), Le(v.pathOffset, 4), Le(v.pathLen, 4)];
    ConcatLength(cells);
    VmaCellStarts(v, cells);
  }

  lemma {:induction false} VmaCellStarts(v: Vma, cells: seq<seq<Byte>>)
    requires cells == [Le(v.start, 8), Le(v.size, 8), Le(v.fileOffset, 8), Le(v.dataOffset, 8),
                       Le(v.prot, 4), Le(v.mapFlags, 4), Le(v.pathOffset, 4), Le(v.pathLen, 4)]
    ensures CellStart(cells, 0) == 0 && CellStart(cells, 1) == 8 && CellStart(cells, 2) == 16
    ensures CellStart(cells, 3) == 24 && CellStart(cells, 4) == 32 && CellStart(cells, 5) == 36
    ensures CellStart(cells, 6) == 40 && CellStart(cells, 7) == 44 && CellStart(cells, 8) == 48
  {
    assert CellStart(cells, 1) == 8;
    assert CellStart(cells, 2) == 16;
    assert CellStart(cells, 3) == 24;
    assert CellStart(cells, 4) == 32;
    assert CellStart(cells, 5) == 36;
    assert CellStart(cells, 6) == 40;
    assert CellStart(cells, 7) == 44;
  }

  lemma {:induction false} FdCellStarts(f: Fd, cells: seq<seq<Byte>>)
    requires cells == [Le(Unsigned(f.fd), 4), Le(Unsigned(f.dupOf), 4), Le(f.flags, 4), Le(f.pathOffset, 4),
                       Le(f.pathLen, 4), Le(0, 4), Le(f.position, 8)]
    ensures CellStart(cells, 0) == 0 && CellStart(cells, 1) == 4 && CellStart(cells, 2) == 8
    ensures CellStart(cells, 3) == 12 && CellStart(cells, 4) == 16 && CellStart(cells, 6) == 24
    ensures CellStart(cells, 7) == 32
  {
    assert CellStart(cells, 1) == 4;
    assert CellStart(cells, 2) == 8;
    assert CellStart(cells, 3) == 12;
    assert CellStart(cells, 4) == 16;
    assert CellStart(cells, 5) == 20;
    assert CellStart(cells, 6) == 24;
  }

  lemma {:induction false} FdSize(f: Fd)
    ensures |FdBytes(f)| == FD_SIZE
  {
    var cells := [Le(Unsigned(f.fd), 4), Le(Unsigned(f.dupOf), 4), Le(f.flags, 4), Le(f.pathOffset, 4),
                  Le(f.pathLen, 4), Le(0, 4), Le(f.position, 8)];
    ConcatLength(cells);
    FdCellStarts(f, cells);
  }

  lemma {:induction false} KernelMapTableSize(maps: seq<KernelMap>)
    requires forall i :: 0 <= i < |maps| ==> |maps[i].name| == KERNEL_MAP_NAME_LEN
    ensures |KernelMapTable(maps)| == 48 * |maps|
  {
    forall i | 0 <= i < |maps| ensures |KernelMapBytes(maps[i])| == 48 { KernelMapSize(maps[i]); }
    TableLength(seq(|maps|, i requires 0 <= i < |maps| => KernelMapBytes(maps[i])), 48);
  }

  lemma {:induction false} RegsSize(regs: seq<U64>)
    ensures |RegsBytes(regs)| == 8 * |regs|
  {
    TableLength(seq(|regs|, i requires 0 <= i < |regs| => Le(regs[i], 8)), 8);
  }

  lemma {:induction false} VmaTableSize(vmas: seq<Vma>)
    ensures |VmaTable(vmas)| == VMA_SIZE * |vmas|
  {
    forall i | 0 <= i < |vmas| ensures |VmaBytes(vmas[i])| == VMA_SIZE { VmaSize(vmas[i]); }
    TableLength(seq(|vmas|, i requires 0 <= i < |vmas| => VmaBytes(vmas[i])), VMA_SIZE);
  }

  lemma {:induction false} FdTableSize(fds: seq<Fd>)
    ensures |FdTable(fds)| == FD_SIZE * |fds|
  {
    forall i | 0 <= i < |fds| ensures |FdBytes(fds[i])| == FD_SIZE { FdSize(fds[i]); }
    TableLength(seq(|fds|, i requires 0 <= i < |fds| => FdBytes(fds[i])), FD_SIZE);
  }

  /** The member offsets the compiler gives the struct, and its total size. */
  lemma {:induction false} HeaderCellStarts(h: Header, cells: seq<seq<Byte>>)
    requires h.Shaped() && cells == HeaderCells(h)
    ensures CellStart(cells, 0) == 0 && CellStart(cells, 1) == 8 && CellStart(cells, 2) == 12
    ensures CellStart(cells, 3) == 16 && CellStart(cells, 4) == 24 && CellStart(cells, 5) == 32
    ensures CellStart(cells, 6) == 40 && CellStart(cells, 7) == 48 && CellStart(cells, 8) == 52
    ensures CellStart(cells, 9) == 4148 && CellStart(cells, 10) == 4152 && CellStart(cells, 11) == 4344
    ensures CellStart(cells, 12) == 4560 && CellStart(cells, 13) == 4568 && CellStart(cells, 14) == 4572
    ensures CellStart(cells, 15) == 4576 && CellStart(cells, 16) == 4584 && CellStart(cells, 17) == 4588
    ensures |HeaderBytes(h)| == HEADER_SIZE
  {
    KernelMapTableSize(h.kernelMaps);
    RegsSize(h.regs);
    assert CellStart(cells, 1) == 8;
    assert CellStart(cells, 2) == 12;
    assert CellStart(cells, 3) == 16;
    assert CellStart(cells, 4) == 24;
    assert CellStart(cells, 5) == 32;
    assert CellStart(cells, 6) == 40;
    assert CellStart(cells, 7) == 48;
    assert CellStart(cells, 8) == 52;
    assert CellStart(cells, 9) == 4148;
    assert CellStart(cells, 10) == 4152;
    assert CellStart(cells, 11) == 4344;
    assert CellStart(cells, 12) == 4560;
    assert CellStart(cells, 13) == 4568;
    assert CellStart(cells, 14) == 4572;
    assert CellStart(cells, 15) == 4576;
    assert CellStart(cells, 16) == 4584;
    assert CellStart(cells, 17) == 4588;
    ConcatLength(cells);
  }

  // ----- round trips -----

  lemma {:induction false} KernelMapRoundTrip(raw: seq<Byte>, at: nat, k: KernelMap)
    requires |k.name| == KERNEL_MAP_NAME_LEN && Holds(raw, at, KernelMapBytes(k))
    ensures at + 48 <= |raw| && KernelMapAt(raw, at) == k
  {
    var cells := [Le(k.start, 8), Le(k.size, 8), k.name];
    KernelMapSize(k);
    assert CellStart(cells, 1) == 8;
    assert CellStart(cells, 2) == 16;
    HoldsCell(raw, at, cells, 0);
    HoldsCell(raw, at, cells, 1);
    HoldsCell(raw, at, cells, 2);
    HoldsWord(raw, at, 8, k.start);
    HoldsWord(raw, at + 8, 8, k.size);
  }

  lemma {:induction false} VmaRoundTrip(raw: seq<Byte>, at: nat, v: Vma)
    requires Holds(raw, at, VmaBytes(v))
    ensures at + VMA_SIZE <= |raw| && VmaAt(raw, at) == v
  {
    var cells := [Le(v.start, 8), Le(v.size, 8), Le(v.fileOffset, 8), Le(v.dataOffset, 8),
                  Le(v.prot, 4), Le(v.mapFlags, 4), Le(v.pathOffset, 4), Le(v.pathLen, 4)];
    VmaSize(v);
    VmaCellStarts(v, cells);
    hide Le;
    HoldsField(raw, at, cells, 0, 0, 8, v.start);
    HoldsField(raw, at, cells, 1, 8, 8, v.size);
    HoldsField(raw, at, cells, 2, 16, 8, v.fileOffset);
    HoldsField(raw, at, cells, 3, 24, 8, v.dataOffset);
    HoldsField(raw, at, cells, 4, 32, 4, v.prot);
    HoldsField(raw, at, cells, 5, 36, 4, v.mapFlags);
    HoldsField(raw, at, cells, 6, 40, 4, v.pathOffset);
    HoldsField(raw, at, cells, 7, 44, 4, v.pathLen);
  }

  lemma {:induction false} FdRoundTrip(raw: seq<Byte>, at: nat, f: Fd)
    requires Holds(raw, at, FdBytes(f))
    ensures at + FD_SIZE <= |raw| && FdAt(raw, at) == f
  {
    var cells := [Le(Unsigned(f.fd), 4), Le(Unsigned(f.dupOf), 4), Le(f.flags, 4), Le(f.pathOffset, 4),
                  Le(f.pathLen, 4), Le(0, 4), Le(f.position, 8)];
    FdSize(f);
    FdCellStarts(f, cells);
    HoldsField(raw, at, cells, 0, 0, 4, Unsigned(f.fd));
    HoldsField(raw, at, cells, 1, 4, 4, Unsigned(f.dupOf));
    HoldsField(raw, at, cells, 2, 8, 4, f.flags);
    HoldsField(raw, at, cells, 3, 12, 4, f.pathOffset);
    HoldsField(raw, at, cells, 4, 16, 4, f.pathLen);
    HoldsField(raw, at, cells, 6, 24, 8, f.position);
  }

  /** Reading the C struct back at its member offsets gives the header that was written. */
  lemma {:induction false} HeaderRoundTrip(raw: seq<Byte>, h: Header)
    requires h.Shaped() && Holds(raw, 0, HeaderBytes(h))
    ensures |raw| >= HEADER_SIZE && HeaderAt(raw) == h
  {
    var cells := HeaderCells(h);
    HeaderCellStarts(h, cells);
    forall k | 0 <= k < 18 ensures Holds(raw, CellStart(cells, k), cells[k]) { HoldsCell(raw, 0, cells, k); }
    HoldsWord(raw, 8, 4, h.version);
    HoldsWord(raw, 12, 4, h.vmaCount);
    HoldsWord(raw, 16, 8, h.vmaTableOffset);
    HoldsWord(raw, 24, 8, h.pathPoolOffset);
    HoldsWord(raw, 32, 8, h.pathPoolSize);
    HoldsWord(raw, 40, 8, h.dataOffset);
    HoldsWord(raw, 48, 4, h.exePathLen);
    HoldsWord(raw, 4148, 4, h.kernelMapCount);
    HoldsWord(raw, 4560, 8, h.xstateOffset);
    HoldsWord(raw, 4568, 4, h.xstateSize);
    HoldsWord(raw, 4576, 8, h.fdTableOffset);
    HoldsWord(raw, 4584, 4, h.fdCount);
    KernelMapsHeld(raw, 4152, h.kernelMaps);
    RegsHeld(raw, 4344, h.regs);
  }

  lemma {:induction false} KernelMapsHeld(raw: seq<Byte>, at: nat, maps: seq<KernelMap>)
    requires forall i :: 0 <= i < |maps| ==> |maps[i].name| == KERNEL_MAP_NAME_LEN
    requires Holds(raw, at, KernelMapTable(maps))
    ensures forall i :: 0 <= i < |maps| ==> at + 48 * i + 48 <= |raw| && KernelMapAt(raw, at + 48 * i) == maps[i]
  {
    var rows := seq(|maps|, i requires 0 <= i < |maps| => KernelMapBytes(maps[i]));
    forall i | 0 <= i < |maps| ensures |rows[i]| == 48 { KernelMapSize(maps[i]); }
    forall i | 0 <= i < |maps|
      ensures at + 48 * i + 48 <= |raw| && KernelMapAt(raw, at + 48 * i) == maps[i]
    {
      HoldsRow(raw, at, rows, 48, i);
      KernelMapRoundTrip(raw, at + 48 * i, maps[i]);
    }
  }

  lemma {:induction false} RegsHeld(raw: seq<Byte>, at: nat, regs: seq<U64>)
    requires Holds(raw, at, RegsBytes(regs))
    ensures forall i :: 0 <= i < |regs| ==> at + 8 * i + 8 <= |raw| && U64At(raw, at + 8 * i) == regs[i]
  {
    var rows := seq(|regs|, i requires 0 <= i < |regs| => Le(regs[i], 8));
    forall i | 0 <= i < |regs|
      ensures at + 8 * i + 8 <= |raw| && U64At(raw, at + 8 * i) == regs[i]
    {
      HoldsRow(raw, at, rows, 8, i);
      HoldsWord(raw, at + 8 * i, 8, regs[i]);
    }
  }

  lemma {:induction false} VmaTableHeld(raw: seq<Byte>, at: nat, vmas: seq<Vma>)
    requires Holds(raw, at, VmaTable(vmas))
    ensures at + VMA_SIZE * |vmas| <= |raw|
    ensures forall i :: 0 <= i < |vmas| ==> at + VMA_SIZE * i + VMA_SIZE <= |raw| && VmaAt(raw, at + VMA_SIZE * i) == vmas[i]
  {
    VmaTableSize(vmas);
    var rows := seq(|vmas|, i requires 0 <= i < |vmas| => VmaBytes(vmas[i]));
    forall i | 0 <= i < |vmas| ensures |rows[i]| == VMA_SIZE { VmaSize(vmas[i]); }
    forall i | 0 <= i < |vmas|
      ensures at + VMA_SIZE * i + VMA_SIZE <= |raw| && VmaAt(raw, at + VMA_SIZE * i) == vmas[i]
    {
      HoldsRow(raw, at, rows, VMA_SIZE, i);
      VmaRoundTrip(raw, at + VMA_SIZE * i, vmas[i]);
    }
  }

  lemma {:induction false} FdTableHeld(raw: seq<Byte>, at: nat, fds: seq<Fd>)
    requires Holds(raw, at, FdTable(fds))
    ensures at + FD_SIZE * |fds| <= |raw|
    ensures forall i :: 0 <= i < |fds| ==> at + FD_SIZE * i + FD_SIZE <= |raw| && FdAt(raw, at + FD_SIZE * i) == fds[i]
  {
    FdTableSize(fds);
    var rows := seq(|fds|, i requires 0 <= i < |fds| => FdBytes(fds[i]));
    forall i | 0 <= i < |fds| ensures |rows[i]| == FD_SIZE { FdSize(fds[i]); }
    forall i | 0 <= i < |fds|
      ensures at + FD_SIZE * i + FD_SIZE <= |raw| && FdAt(raw, at + FD_SIZE * i) == fds[i]
    {
      HoldsRow(raw, at, rows, FD_SIZE, i);
      FdRoundTrip(raw, at + FD_SIZE * i, fds[i]);
    }
  }
}
