/** Dump, then restore: what the restored process has in common with the one that was dumped. */
module Migration {
  import opened Bytes
  import opened DumpFormat
  import opened PathPool
  import opened Maps
  import opened Fds
  import opened Target
  import opened SharedFiles
  import opened Collector
  import opened Layout
  import opened RoundTrip
  import opened AddressSpace
  import opened Child
  import opened KernelMaps
  import opened Areas
  import opened Descriptors
  import opened Restorer
  import Reader
  import Dumper

  // ----- memory -----

  /** Every byte of every copied mapping is there, but for an instruction that could not be put back. */
  ghost predicate BytesPreserved(image: Image, s: Space, at: int, lost: bool) {
    forall l :: l in OfClass(image.lines, VmaDump) ==> MappingPreserved(image.mem, s, l, at, lost)
  }

  ghost predicate MappingPreserved(mem: map<int, Byte>, s: Space, l: ParsedLine, at: int, lost: bool) {
    forall a :: l.start <= a < l.end ==> a in mem && a in s.cells && ByteKept(mem[a], s.cells[a].value, a, at, lost)
  }

  /** Every copied mapping has its protection. */
  ghost predicate ProtsPreserved(image: Image, s: Space) {
    forall l :: l in OfClass(image.lines, VmaDump) ==> ProtPreserved(s, l)
  }

  ghost predicate ProtPreserved(s: Space, l: ParsedLine) {
    forall a :: l.start <= a < l.end ==> a in s.cells && s.cells[a].prot == PermsToProt(l.privileges)
  }

  /**
   Every kernel mapping is listed at the address and with the size it had, and
   the memory there is, cell for cell, what the fresh program had in its (lowest)
   mapping of that name.
   */
  ghost predicate KernelMapsPreserved(image: Image, boot: Space, s: Space) {
    forall l :: l in OfClass(image.lines, VmaKernel) ==> KernelMapPreserved(boot, s, l)
  }

  ghost predicate KernelMapPreserved(boot: Space, s: Space, l: ParsedLine) {
    && Line(l.path, l.start, l.Size()) in s.lines
    && exists m :: LowestNamed(boot.lines, m) && m.name == l.path && m.size == l.Size() && MovedTo(boot, s, m, l.start)
  }

  lemma {:induction false} ByteComesBack(file: seq<Byte>, mem: map<int, Byte>, s: Space, v: Vma, a: int, at: int, lost: bool)
    requires Mapped(mem, v.start, v.size) && Holds(file, v.dataOffset, MemBytes(mem, v.start, v.size))
    requires Filled(s, file, v, v.size, at, lost) && v.start <= a < v.start + v.size
    ensures a in mem && a in s.cells && ByteKept(mem[a], s.cells[a].value, a, at, lost)
  {
    var bytes, k := MemBytes(mem, v.start, v.size), a - v.start;
    assert bytes[k] == file[v.dataOffset..v.dataOffset + |bytes|][k];
  }

  lemma {:induction false} AreaIsMapping(file: seq<Byte>, mem: map<int, Byte>, s: Space, v: Vma, l: ParsedLine, pool: seq<Byte>,
                                         at: int, lost: bool)
    requires Records(v, l, pool) && Mapped(mem, v.start, v.size)
    requires Holds(file, v.dataOffset, MemBytes(mem, v.start, v.size))
    requires Filled(s, file, v, v.size, at, lost)
    ensures MappingPreserved(mem, s, l, at, lost)
  {
    hide Holds, MemBytes, Mapped, Filled, StringAt, NoNul, PermsToProt, PermsToMapFlags, ByteKept;
    forall a | l.start <= a < l.end
      ensures a in mem && a in s.cells && ByteKept(mem[a], s.cells[a].value, a, at, lost)
    {
      ByteComesBack(file, mem, s, v, a, at, lost);
    }
  }

  lemma {:induction false} WantedAre(p: Parts)
    requires p.Valid()
    ensures Wanted(HeaderOf(p)) == p.kernelMaps
  {
  }

  lemma {:induction false} NamePreserved(l: ParsedLine)
    requires |l.path| < KERNEL_MAP_NAME_LEN
    ensures WantedLine(KernelMapOf(l)) == Line(l.path, l.start, l.Size())
  {
    UpToNulStops(l.path, Zeros(KERNEL_MAP_NAME_LEN - |l.path|));
  }

  lemma {:induction false} KernelMapBack(boot: Space, s: Space, k: KernelMap, l: ParsedLine)
    requires |l.path| < KERNEL_MAP_NAME_LEN && k == KernelMapOf(l) && Brought(boot, s, k)
    ensures KernelMapPreserved(boot, s, l)
  {
    hide MovedTo, NameOf, KernelMapOf, LowestNamed;
    NamePreserved(l);
    var m :| BroughtFrom(boot, s, m, k);
    assert WantedLine(k).name == l.path && WantedLine(k).start == l.start && WantedLine(k).size == l.Size();
  }

  lemma {:induction false} BytesComeBack(p: Parts, image: Image, file: seq<Byte>, s: Space, at: int, lost: bool)
    requires Written(p, image, file) && BytesRestored(s, file, p.vmas, at, lost)
    ensures BytesPreserved(image, s, at, lost)
  {
    hide Regions, FdsCollected, FdsLinked, Laid, LinesOrdered, FdsConsistent, Filled;
    var lines := OfClass(image.lines, VmaDump);
    forall l | l in lines ensures MappingPreserved(image.mem, s, l, at, lost) {
      var i :| 0 <= i < |lines| && lines[i] == l;
      PayloadIsMemory(p, image, file, i);
      AreaIsMapping(file, image.mem, s, p.vmas[i], l, p.pool, at, lost);
    }
  }

  lemma {:induction false} ProtsComeBack(p: Parts, image: Image, s: Space)
    requires RecordsAll(p.vmas, OfClass(image.lines, VmaDump), p.pool) && ProtsRestored(s, p.vmas)
    ensures ProtsPreserved(image, s)
  {
    hide StringAt, NoNul, PermsToProt, PermsToMapFlags;
    var lines := OfClass(image.lines, VmaDump);
    forall l | l in lines ensures ProtPreserved(s, l) {
      var i :| 0 <= i < |lines| && lines[i] == l;
      assert Records(p.vmas[i], l, p.pool) && HasProt(s, p.vmas[i], p.vmas[i].prot);
    }
  }

  lemma {:induction false} MapsComeBack(p: Parts, image: Image, boot: Space, s: Space)
    requires KernelMapsOf(p.kernelMaps, OfClass(image.lines, VmaKernel)) && MapsRestored(boot, s, p.kernelMaps)
    ensures KernelMapsPreserved(image, boot, s)
  {
    hide Brought, KernelMapPreserved, KernelMapOf;
    var kernel := OfClass(image.lines, VmaKernel);
    forall l | l in kernel ensures KernelMapPreserved(boot, s, l) {
      var i :| 0 <= i < |kernel| && kernel[i] == l;
      KernelMapBack(boot, s, p.kernelMaps[i], l);
    }
  }

  /** The entry point of the fresh program lies in no copied mapping. */
  predicate SiteNotCopied(image: Image, at: int) {
    forall l :: l in OfClass(image.lines, VmaDump) ==> !In(at, l.start, l.Size()) && !In(at + 1, l.start, l.Size())
  }

  /** The dumped process had the opcode of a system call at that address itself. */
  predicate OpcodeAt(mem: map<int, Byte>, at: int) {
    at in mem && at + 1 in mem && [mem[at], mem[at + 1]] == OPCODE
  }

  /** A lost instruction does no harm where nothing was copied, or where the opcode stood anyway. */
  lemma {:induction false} LossDoesNoHarm(image: Image, s: Space, at: int, lost: bool)
    requires BytesPreserved(image, s, at, lost)
    requires !lost || SiteNotCopied(image, at) || OpcodeAt(image.mem, at)
    ensures BytesPreserved(image, s, at, false)
  {
    if OpcodeAt(image.mem, at) {
      assert [image.mem[at], image.mem[at + 1]][0] == OPCODE[0] && [image.mem[at], image.mem[at + 1]][1] == OPCODE[1];
    }
    forall l | l in OfClass(image.lines, VmaDump) ensures MappingPreserved(image.mem, s, l, at, false) {
      assert MappingPreserved(image.mem, s, l, at, lost);
    }
  }

  /**
   For a child that has everything, the opcode left at the entry point is the
   one difference there can be, and there is none exactly when the entry point
   lies in no copied mapping or the dumped process had the opcode there itself.
   */
  lemma {:induction false} LossIsFeltExactly(image: Image, s: Space, at: int)
    requires BytesPreserved(image, s, at, false)
    requires forall l :: l in OfClass(image.lines, VmaDump) ==> (In(at, l.start, l.Size()) <==> In(at + 1, l.start, l.Size()))
    ensures BytesPreserved(image, Planted(s, at), at, true)
    ensures BytesPreserved(image, Planted(s, at), at, false) <==> SiteNotCopied(image, at) || OpcodeAt(image.mem, at)
  {
    hide Planted, OfClass;
    forall l | l in OfClass(image.lines, VmaDump) ensures MappingPreserved(image.mem, Planted(s, at), l, at, true) {
      PlantedInMapping(image.mem, s, l, at);
    }
    if SiteNotCopied(image, at) || OpcodeAt(image.mem, at) {
      LossDoesNoHarm(image, Planted(s, at), at, true);
    } else {
      var l :| l in OfClass(image.lines, VmaDump) && (In(at, l.start, l.Size()) || In(at + 1, l.start, l.Size()));
      assert MappingPreserved(image.mem, s, l, at, false);
      OpcodeFelt(image.mem, s, l, at);
    }
  }

  lemma {:induction false} PlantedInMapping(mem: map<int, Byte>, s: Space, l: ParsedLine, at: int)
    requires MappingPreserved(mem, s, l, at, false)
    ensures MappingPreserved(mem, Planted(s, at), l, at, true)
  {
    hide Planted;
    forall a | l.start <= a < l.end
      ensures a in mem && a in Planted(s, at).cells
      ensures ByteKept(mem[a], Planted(s, at).cells[a].value, a, at, true)
    {
      PlantedAt(s, at, a);
    }
  }

  lemma {:induction false} OpcodeFelt(mem: map<int, Byte>, s: Space, l: ParsedLine, at: int)
    requires MappingPreserved(mem, s, l, at, false) && l.start <= at && at + 1 < l.end && !OpcodeAt(mem, at)
    ensures !MappingPreserved(mem, Planted(s, at), l, at, false)
  {
    hide Planted;
    PlantedAt(s, at, at);
    PlantedAt(s, at, at + 1);
    assert [mem[at], mem[at + 1]] == OPCODE <==> mem[at] == OPCODE[0] && mem[at + 1] == OPCODE[1];
  }

  // ----- descriptors -----

  /** Descriptors of one open file report one position and one set of file flags. */
  predicate OffsetsShared(image: Image) {
    forall v, w :: v in image.fds && w in image.fds && v.fd in image.fileOf && w.fd in image.fileOf
                   && image.fileOf[v.fd] == image.fileOf[w.fd] && v.info.Some? && w.info.Some? ==>
      && v.info.value.position == w.info.value.position
      && ClearBit(v.info.value.flags, O_CLOEXEC) == ClearBit(w.info.value.flags, O_CLOEXEC)
  }

  /** The open file a carried descriptor comes back with. */
  function FileBack(v: FdView): OpenFile
    requires v.link.Some? && v.info.Some?
  {
    OpenFile(v.link.value, ClearBit(v.info.value.flags, O_CLOEXEC),
             if HasBit(v.info.value.flags, O_PATH) then 0 else v.info.value.position)
  }

  /**
   A carried descriptor has its number, its file where it was, and, with `flags`,
   its own close-on-exec bit; it never has the bit without having had it.
   */
  predicate FdPreserved(v: FdView, fds: map<int, Slot>, files: seq<OpenFile>, flags: bool) {
    && v.link.Some? && v.info.Some?
    && v.fd as int in fds && fds[v.fd].file < |files|
    && (fds[v.fd].cloexec ==> HasBit(v.info.value.flags, O_CLOEXEC))
    && (flags && HasBit(v.info.value.flags, O_CLOEXEC) ==> fds[v.fd].cloexec)
    && files[fds[v.fd].file] == FileBack(v)
  }

  /** Two carried descriptors share an open file iff they did; only the one direction when a comparison failed. */
  predicate SharingPreserved(image: Image, fds: map<int, Slot>, v: FdView, w: FdView, exact: bool) {
    && v.fd as int in fds && w.fd as int in fds && v.fd in image.fileOf && w.fd in image.fileOf
    && (fds[v.fd].file == fds[w.fd].file ==> image.fileOf[v.fd] == image.fileOf[w.fd])
    && (exact && image.fileOf[v.fd] == image.fileOf[w.fd] ==> fds[v.fd].file == fds[w.fd].file)
  }

  predicate CarriedOver(image: Image, v: FdView) {
    v in image.fds && ClassifyFd(v) == FdDump
  }

  ghost predicate FdsPreserved(image: Image, fds: map<int, Slot>, files: seq<OpenFile>, exact: bool, flags: bool) {
    && (forall k :: k > 2 ==> (k in fds <==> exists v :: CarriedOver(image, v) && v.fd == k))
    && (forall v :: CarriedOver(image, v) ==> FdPreserved(v, fds, files, flags))
    && (forall v, w :: CarriedOver(image, v) && CarriedOver(image, w) ==> SharingPreserved(image, fds, v, w, exact))
  }

  /** In a linked table a chain has at most one step, to the least descriptor of the file. */
  lemma {:induction false} RootIsLeast(image: Image, fds: seq<Fd>, pool: seq<Byte>, done: nat, i: nat)
    requires Reader.FdTableOk(fds, pool) && FdsLinked(image, fds, done) && i < |fds|
    ensures fds[i].dupOf == -1 ==> Reader.Root(fds, pool, i) == i
    ensures fds[i].dupOf != -1 ==> fds[i].fd in image.fileOf && Reader.Root(fds, pool, i) == Least(image, fds, i)
    ensures i < done ==> fds[i].fd in image.fileOf && Reader.Root(fds, pool, i) == Least(image, fds, i)
  {
    Reader.Ordered(fds, pool);
    assert i < done ==> Canonical(image, fds, i);
    if fds[i].dupOf != -1 {
      assert Canonical(image, fds, i) && Reader.EntryOk(fds, pool, i);
      var least := Least(image, fds, i);
      var j := Reader.IndexOf(fds, fds[i].dupOf, i);
      assert j == least;
      assert Canonical(image, fds, least);
      assert Least(image, fds, least) == least by {
        var lower := Least(image, fds, least);
        assert Shares(image, fds, lower, i);
      }
    } else if i < done {
      var least := Least(image, fds, i);
      assert Reader.EntryOk(fds, pool, least);
    }
  }

  /** Chains ending together means one open file, and with every comparison made the converse holds too. */
  lemma {:induction false} RootsAndFiles(image: Image, fds: seq<Fd>, pool: seq<Byte>, done: nat, i: nat, j: nat)
    requires Reader.FdTableOk(fds, pool) && FdsLinked(image, fds, done) && i < |fds| && j < |fds|
    requires fds[i].fd in image.fileOf && fds[j].fd in image.fileOf
    ensures Reader.Root(fds, pool, i) == Reader.Root(fds, pool, j) ==> Shares(image, fds, i, j)
    ensures done == |fds| && Shares(image, fds, i, j) ==> Reader.Root(fds, pool, i) == Reader.Root(fds, pool, j)
  {
    hide Reader.FdTableOk, FdsLinked;
    RootIsLeast(image, fds, pool, done, i);
    RootIsLeast(image, fds, pool, done, j);
    var a, b := Least(image, fds, i), Least(image, fds, j);
    if Shares(image, fds, i, j) {
      assert Shares(image, fds, a, j) && Shares(image, fds, b, i);
      assert a == b;
    }
  }

  /** The entry of a carried descriptor. */
  lemma {:induction false} EntryOf(image: Image, fds: seq<Fd>, pool: seq<Byte>, v: FdView) returns (i: nat)
    requires FdsCollected(image, fds, pool) && CarriedOver(image, v)
    ensures i < |fds| && Carries(fds[i], v, pool) && fds[i].fd == v.fd
  {
    assert HasEntry(fds, v, pool);
    i :| 0 <= i < |fds| && Carries(fds[i], v, pool);
  }

  lemma {:induction false} ViewOf(image: Image, fds: seq<Fd>, pool: seq<Byte>, i: nat) returns (v: FdView)
    requires FdsCollected(image, fds, pool) && i < |fds|
    ensures CarriedOver(image, v) && Carries(fds[i], v, pool)
  {
    assert FromSomeView(image, fds[i], pool);
    v :| v in image.fds && Carries(fds[i], v, pool);
  }

  lemma {:induction false} ReopenedIs(e: Fd, v: FdView, pool: seq<Byte>)
    requires Carries(e, v, pool)
    ensures e.pathOffset <= |pool| && Reopened(e, pool) == FileBack(v)
  {
    CStringIs(pool, e.pathOffset, v.link.value);
  }

  lemma {:induction false} OneFdBack(image: Image, fds: seq<Fd>, pool: seq<Byte>, done: nat, slots: map<int, Slot>, files: seq<OpenFile>, v: FdView, flags: bool)
    requires FdsConsistent(image) && OffsetsShared(image)
    requires FdsCollected(image, fds, pool) && FdsLinked(image, fds, done) && Reader.FdTableOk(fds, pool)
    requires FdsRestored(slots, files, fds, pool, flags) && CarriedOver(image, v)
    ensures FdPreserved(v, slots, files, flags)
  {
    hide Reader.FdTableOk, FdsCollected, FdsLinked, Reopened, Sorted;
    var i := EntryOf(image, fds, pool, v);
    var r := Reader.Root(fds, pool, i);
    var w := ViewOf(image, fds, pool, r);
    assert EntryRestored(slots, files, fds[i], pool, flags) && EntryRestored(slots, files, fds[r], pool, flags);
    assert slots[fds[i].fd].file == slots[fds[r].fd].file;
    RootsAndFiles(image, fds, pool, done, i, r);
    assert image.fileOf[v.fd] == image.fileOf[w.fd];
    ReopenedIs(fds[r], w, pool);
    SameFileBack(image, v, w);
  }

  lemma {:induction false} SameFileBack(image: Image, v: FdView, w: FdView)
    requires FdsConsistent(image) && OffsetsShared(image) && CarriedOver(image, v) && CarriedOver(image, w)
    requires image.fileOf[v.fd] == image.fileOf[w.fd] && v.info.Some? && w.info.Some?
    ensures v.link.Some? && w.link.Some? && FileBack(v) == FileBack(w)
  {
    PathBitKept(v.info.value.flags);
    PathBitKept(w.info.value.flags);
  }

  lemma {:induction false} PathBitKept(flags: U32)
    ensures HasBit(ClearBit(flags, O_CLOEXEC), O_PATH) == HasBit(flags, O_PATH)
  {
    if HasBit(flags, O_CLOEXEC) {
      PathQuotientKept(flags);
    }
  }

  /** The path-only bit stands two places above the close-on-exec bit, so clearing that one does not borrow from it. */
  lemma {:induction false} PathQuotientKept(flags: U32)
    requires HasBit(flags, O_CLOEXEC)
    ensures flags >= O_CLOEXEC && (flags - O_CLOEXEC) / O_PATH == flags / O_PATH
  {
    var h, r := OddParts(flags);
    hide HasBit;
    Quotient(flags, h);
    Quotient(flags - O_CLOEXEC, h);
  }

  lemma {:induction false} OddParts(flags: U32) returns (h: nat, r: nat)
    requires HasBit(flags, O_CLOEXEC)
    ensures 1 <= r <= 3 && h * O_PATH + r * O_CLOEXEC <= flags < h * O_PATH + r * O_CLOEXEC + O_CLOEXEC
  {
    var q := flags / O_CLOEXEC;
    var half := q / 2;
    assert q == 2 * half + 1;
    var odd := half % 2;
    h, r := half / 2, 2 * odd + 1;
    assert half == 2 * h + odd;
  }

  lemma {:induction false} Quotient(x: nat, h: nat)
    requires h * O_PATH <= x < h * O_PATH + O_PATH
    ensures x / O_PATH == h
  {
  }

  lemma {:induction false} FdsComeBack(image: Image, fds: seq<Fd>, pool: seq<Byte>, done: nat, slots: map<int, Slot>, files: seq<OpenFile>,
                                       flags: bool)
    requires FdsConsistent(image) && OffsetsShared(image)
    requires FdsCollected(image, fds, pool) && FdsLinked(image, fds, done) && Reader.FdTableOk(fds, pool)
    requires FdsRestored(slots, files, fds, pool, flags)
    ensures FdsPreserved(image, slots, files, done == |fds|, flags)
  {
    hide Reader.FdTableOk, FdsCollected, FdsLinked, Sorted, ClassifyFd;
    forall v | CarriedOver(image, v) ensures FdPreserved(v, slots, files, flags) {
      OneFdBack(image, fds, pool, done, slots, files, v, flags);
    }
    forall v, w | CarriedOver(image, v) && CarriedOver(image, w)
      ensures SharingPreserved(image, slots, v, w, done == |fds|)
    {
      var i := EntryOf(image, fds, pool, v);
      var j := EntryOf(image, fds, pool, w);
      assert EntryRestored(slots, files, fds[i], pool, flags) && EntryRestored(slots, files, fds[j], pool, flags);
      RootsAndFiles(image, fds, pool, done, i, j);
    }
    forall k | k > 2 ensures k in slots <==> exists v :: CarriedOver(image, v) && v.fd == k {
      NumberCarried(image, fds, pool, k);
    }
  }

  lemma {:induction false} NumberCarried(image: Image, fds: seq<Fd>, pool: seq<Byte>, k: int)
    requires FdsCollected(image, fds, pool)
    ensures k in Numbers(fds, |fds|) <==> exists v :: CarriedOver(image, v) && v.fd == k
  {
    NumberOf(fds, |fds|, k);
    if k in Numbers(fds, |fds|) {
      var i :| 0 <= i < |fds| && fds[i].fd == k;
      var v := ViewOf(image, fds, pool, i);
    }
    if v :| CarriedOver(image, v) && v.fd == k {
      var i := EntryOf(image, fds, pool, v);
    }
  }

  // ----- room for the snapshot -----

  predicate KernelNamesDistinct(lines: seq<RawLine>) {
    forall i, j :: 0 <= i < j < |OfClass(lines, VmaKernel)| ==>
      OfClass(lines, VmaKernel)[i].path != OfClass(lines, VmaKernel)[j].path
  }

  /**
   What is asked of the fresh program: a mapping list without overlaps, and an
   executable entry point whose eight bytes are clear of every kernel mapping
   that moves and of every place one moves to, and whose two instruction bytes
   are in the same copied mapping or in none.
   */
  ghost predicate BootFits(boot: Boot, image: Image)
  {
    && |boot.regs| == REGS_COUNT
    && LinesOk(boot.space.lines)
    && Executable(boot.space, boot.regs[RIP])
    && KernelNamesDistinct(image.lines)
    && (forall l :: l in OfClass(image.lines, VmaKernel) ==> Apart(boot.regs[RIP], 8, l.start, l.Size()))
    && (forall l, m :: l in OfClass(image.lines, VmaKernel) && m in boot.space.lines && m.name == l.path ==>
          Apart(boot.regs[RIP], 8, m.start, m.size))
    && (forall l :: l in OfClass(image.lines, VmaDump) ==>
          (In(boot.regs[RIP], l.start, l.Size()) <==> In(boot.regs[RIP] as int + 1, l.start, l.Size())))
  }

  lemma {:induction false} MemberPlace(lines: seq<RawLine>, c: VmaClass, k: nat) returns (i: nat)
    requires k < |OfClass(lines, c)|
    ensures i < |lines| && lines[i] == Parsed(OfClass(lines, c)[k])
  {
    OfClassMember(lines, c, k);
    i :| 0 <= i < |lines| && lines[i] == Parsed(OfClass(lines, c)[k]);
  }

  /** Two different lines of a listing share no address, whatever their classes. */
  lemma {:induction false} MembersApart(lines: seq<RawLine>, c: VmaClass, i: nat, d: VmaClass, j: nat)
    requires LinesOrdered(lines) && i < |OfClass(lines, c)| && j < |OfClass(lines, d)|
    requires c != d || i != j
    ensures var l, m := OfClass(lines, c)[i], OfClass(lines, d)[j]; Apart(l.start, l.Size(), m.start, m.Size())
  {
    var shorter := lines[..|lines| - 1];
    if i < |OfClass(shorter, c)| && j < |OfClass(shorter, d)| {
      MembersApart(shorter, c, i, d, j);
    } else if i < |OfClass(shorter, c)| {
      var k := MemberPlace(shorter, c, i);
      assert lines[k].line.end <= lines[|lines| - 1].line.start;
    } else if j < |OfClass(shorter, d)| {
      var k := MemberPlace(shorter, d, j);
      assert lines[k].line.end <= lines[|lines| - 1].line.start;
    }
  }

  lemma {:induction false} MemberAligned(lines: seq<RawLine>, c: VmaClass, i: nat)
    requires LinesOrdered(lines) && i < |OfClass(lines, c)|
    ensures var l := OfClass(lines, c)[i];
      l.start % PAGE == 0 && l.Size() % PAGE == 0 && l.Size() > 0 && l.end < TWO_64
  {
    var k := MemberPlace(lines, c, i);
    assert lines[k].line.Parsable();
  }

  lemma {:induction false} DumpedAreasOk(vmas: seq<Vma>, lines: seq<RawLine>, pool: seq<Byte>)
    requires LinesOrdered(lines) && RecordsAll(vmas, OfClass(lines, VmaDump), pool)
    ensures AreasOk(vmas)
  {
    hide LinesOrdered, StringAt, PermsToProt, PermsToMapFlags, MapsLine.Parsable;
    forall i | 0 <= i < |vmas| ensures PageAligned(vmas[i]) {
      assert Records(vmas[i], OfClass(lines, VmaDump)[i], pool);
      MemberAligned(lines, VmaDump, i);
    }
    forall i, j | 0 <= i < j < |vmas| ensures Apart(vmas[i].start, vmas[i].size, vmas[j].start, vmas[j].size) {
      assert Records(vmas[i], OfClass(lines, VmaDump)[i], pool) && Records(vmas[j], OfClass(lines, VmaDump)[j], pool);
      MembersApart(lines, VmaDump, i, VmaDump, j);
    }
  }

  lemma {:induction false} KernelMapsWanted(maps: seq<KernelMap>, lines: seq<RawLine>)
    requires LinesOrdered(lines) && KernelMapsOf(maps, OfClass(lines, VmaKernel)) && KernelNamesDistinct(lines)
    ensures WantedOk(maps)
  {
    hide LinesOrdered, NameOf, KernelMapOf, NoNul;
    var kernel := OfClass(lines, VmaKernel);
    forall i | 0 <= i < |maps|
      ensures WantedLine(maps[i]) == Line(kernel[i].path, kernel[i].start, kernel[i].Size()) && kernel[i].path != []
      ensures maps[i].size % PAGE == 0 && maps[i].start + maps[i].size < TWO_64
    {
      NamePreserved(kernel[i]);
      MemberAligned(lines, VmaKernel, i);
      OfClassMember(lines, VmaKernel, i);
    }
    forall i, j | 0 <= i < j < |maps|
      ensures NameOf(maps[i]) != NameOf(maps[j]) && LinesApart(WantedLine(maps[i]), WantedLine(maps[j]))
    {
      MembersApart(lines, VmaKernel, i, VmaKernel, j);
      assert WantedLine(maps[i]).name == kernel[i].path && WantedLine(maps[j]).name == kernel[j].path;
    }
  }

  lemma {:induction false} KernelClearOfAreas(maps: seq<KernelMap>, vmas: seq<Vma>, lines: seq<RawLine>, pool: seq<Byte>)
    requires LinesOrdered(lines) && KernelMapsOf(maps, OfClass(lines, VmaKernel)) && RecordsAll(vmas, OfClass(lines, VmaDump), pool)
    ensures AreasClear(maps, vmas)
  {
    hide LinesOrdered, StringAt, PermsToProt, PermsToMapFlags, MapsLine.Parsable;
    forall i, j | 0 <= i < |maps| && 0 <= j < |vmas| ensures Apart(maps[i].start, maps[i].size, vmas[j].start, vmas[j].size) {
      assert Records(vmas[j], OfClass(lines, VmaDump)[j], pool);
      MembersApart(lines, VmaKernel, i, VmaDump, j);
    }
  }

  lemma {:induction false} SiteFits(p: Parts, image: Image, boot: Boot)
    requires KernelMapsOf(p.kernelMaps, OfClass(image.lines, VmaKernel)) && RecordsAll(p.vmas, OfClass(image.lines, VmaDump), p.pool)
    requires BootFits(boot, image)
    ensures SiteClear(boot.space.lines, p.kernelMaps, boot.regs[RIP]) && SiteTogether(p.vmas, boot.regs[RIP])
  {
    hide LinesOk, Executable, KernelNamesDistinct, StringAt, PermsToProt, PermsToMapFlags, MapsLine.Parsable;
    var kernel, dumped, site := OfClass(image.lines, VmaKernel), OfClass(image.lines, VmaDump), boot.regs[RIP];
    forall i | 0 <= i < |p.kernelMaps|
      ensures Apart(site, 8, p.kernelMaps[i].start, p.kernelMaps[i].size) && NameOf(p.kernelMaps[i]) == kernel[i].path
    {
      assert kernel[i] in kernel;
      NamePreserved(kernel[i]);
      assert WantedLine(p.kernelMaps[i]).name == kernel[i].path;
    }
    forall i | 0 <= i < |p.vmas| ensures InArea(site, p.vmas[i]) <==> InArea(site as int + 1, p.vmas[i]) {
      assert Records(p.vmas[i], dumped[i], p.pool) && dumped[i] in dumped;
    }
  }

  lemma {:induction false} FitsMeansRestorable(p: Parts, image: Image, boot: Boot)
    requires ImageOk(image) && Describes(p, image) && BootFits(boot, image)
    ensures Restorable(boot, p.kernelMaps, p.vmas)
  {
    hide LinesOrdered, RecordsAll, KernelMapsOf, FdsCollected, FdsLinked, FdsConsistent, Laid, AllMapped, KernelNamesDistinct;
    DumpedAreasOk(p.vmas, image.lines, p.pool);
    KernelMapsWanted(p.kernelMaps, image.lines);
    KernelClearOfAreas(p.kernelMaps, p.vmas, image.lines, p.pool);
    SiteFits(p, image, boot);
  }

  // ----- end to end -----

  /** What the kernel guarantees about the descriptors of the dumped process, beyond `ImageOk`. */
  predicate FilesOk(image: Image) {
    FlagsStripped(image) && OffsetsShared(image)
  }

  lemma {:induction false} PartsOf(file: seq<Byte>, image: Image, exact: bool) returns (p: Parts)
    requires SnapshotOf(file, image, exact) && ImageOk(image)
    ensures Describes(p, image) && Written(p, image, file) && (exact ==> p.done == |p.fds|)
  {
    hide Describes, ImageOk, FileOf, Regions;
    p := Witness(file, image, exact);
    FileIsWritten(p, image, file);
  }

  lemma {:induction false} Witness(file: seq<Byte>, image: Image, exact: bool) returns (p: Parts)
    requires SnapshotOf(file, image, exact)
    ensures Describes(p, image) && file == FileOf(p, Payload(p.vmas, image.mem)) && (exact ==> p.done == |p.fds|)
  {
    hide FileOf;
    p :| Describes(p, image) && file == FileOf(p, Payload(p.vmas, image.mem)) && (exact ==> p.done == |p.fds|);
  }

  lemma {:induction false} SnapshotAccepted(file: seq<Byte>, image: Image, exact: bool)
    requires SnapshotOf(file, image, exact) && ImageOk(image) && FilesOk(image)
    ensures Reader.Accepts(file) && |file| < TWO_63
  {
    hide SnapshotOf, Describes, ImageOk, Written, Reader.Accepts;
    var p := PartsOf(file, image, exact);
    FileSize(p, image, file);
    WrittenIsAccepted(p, image, file);
  }

  /** What a file holds, in terms of the process it is a snapshot of. */
  lemma {:induction false} SnapshotHolds(file: seq<Byte>, image: Image, exact: bool) returns (p: Parts)
    requires SnapshotOf(file, image, exact) && ImageOk(image) && FilesOk(image) && Reader.Accepts(file)
    ensures p.Valid() && Describes(p, image) && Written(p, image, file) && (exact ==> p.done == |p.fds|)
    ensures Reader.Contents(file) == ReadBack(p) && Reader.FdTableOk(p.fds, p.pool)
    ensures Reader.FdTableOk(p.fds, if p.fds == [] then [] else p.pool)
    ensures Wanted(HeaderOf(p)) == p.kernelMaps && HeaderOf(p).regs == image.regs && p.xstate == image.xstate
  {
    hide Payload, Reader.Accepts, LinesOrdered, FdsConsistent, RecordsAll, KernelMapsOf, FdsCollected, FdsLinked, Laid, AllMapped;
    hide Regions, FlagsStripped, OffsetsShared, SnapshotOf, FileOf, HeaderBytes, Sorted, Reader.Contents;
    p := PartsOf(file, image, exact);
    WrittenIsAccepted(p, image, file);
    WrittenTableOk(image, p.fds, p.pool, p.done);
    WantedAre(p);
  }

  /** The descriptors end to end. */
  lemma {:induction false} FdsEndToEnd(file: seq<Byte>, image: Image, exact: bool, fds: map<int, Slot>, files: seq<OpenFile>, flags: bool)
    requires SnapshotOf(file, image, exact) && ImageOk(image) && FilesOk(image) && Reader.Accepts(file)
    requires var r := Reader.Contents(file); FdsRestored(fds, files, r.fds, r.pool, flags)
    ensures FdsPreserved(image, fds, files, exact, flags)
  {
    hide Payload, Reader.Accepts, Reader.Contents, FdsRestored, FdsPreserved, LinesOrdered, RecordsAll, KernelMapsOf;
    hide FdsConsistent, FdsCollected, FdsLinked, Laid, AllMapped, FlagsStripped, OffsetsShared, SnapshotOf, FileOf, Regions;
    hide Reader.FdTableOk;
    var p := SnapshotHolds(file, image, exact);
    PoolDoesNotMatter(fds, files, p.fds, p.pool, flags);
    FdsComeBack(image, p.fds, p.pool, p.done, fds, files, flags);
    ExactOrNot(image, fds, files, p.done == |p.fds|, exact, flags);
  }

  /** The bytes of the memory end to end: nothing is asked of the fresh program. */
  lemma {:induction false} BytesEndToEnd(file: seq<Byte>, image: Image, exact: bool, s: Space, at: int, lost: bool)
    requires SnapshotOf(file, image, exact) && ImageOk(image) && FilesOk(image) && Reader.Accepts(file)
    requires AreasOk(Reader.Contents(file).vmas) ==> BytesRestored(s, file, Reader.Contents(file).vmas, at, lost)
    ensures BytesPreserved(image, s, at, lost)
  {
    hide Payload, Reader.Accepts, Reader.Contents, BytesRestored, BytesPreserved, FilesOk, AreasOk;
    hide LinesOrdered, FdsConsistent, RecordsAll, KernelMapsOf, FdsCollected, FdsLinked, Laid, AllMapped, Regions, SnapshotOf, FileOf;
    hide OfClass, Reader.FdTableOk;
    var p := SnapshotHolds(file, image, exact);
    DumpedAreasOk(p.vmas, image.lines, p.pool);
    BytesComeBack(p, image, file, s, at, lost);
  }

  /** Protections and kernel mappings end to end, in a fresh program that leaves room. */
  lemma {:induction false} LayoutEndToEnd(file: seq<Byte>, image: Image, exact: bool, boot: Boot, s: Space, prots: bool, maps: bool)
    requires SnapshotOf(file, image, exact) && ImageOk(image) && FilesOk(image) && BootFits(boot, image) && Reader.Accepts(file)
    requires var r := Reader.Contents(file);
      Restorable(boot, Wanted(r.header), r.vmas) ==>
        (prots ==> ProtsRestored(s, r.vmas)) && (maps ==> MapsRestored(boot.space, s, Wanted(r.header)))
    ensures prots ==> ProtsPreserved(image, s)
    ensures maps ==> KernelMapsPreserved(image, boot.space, s)
  {
    hide Payload, Reader.Accepts, Reader.Contents, Restorable, ProtsRestored, MapsRestored, ProtsPreserved, KernelMapsPreserved, FilesOk;
    hide LinesOrdered, FdsConsistent, RecordsAll, KernelMapsOf, FdsCollected, FdsLinked, Laid, AllMapped, Regions, SnapshotOf, FileOf;
    hide LinesOk, KernelNamesDistinct, Executable, OfClass, Written, Reader.FdTableOk;
    var p := SnapshotHolds(file, image, exact);
    FitsMeansRestorable(p, image, boot);
    if prots {
      ProtsComeBack(p, image, s);
    }
    if maps {
      MapsComeBack(p, image, boot.space, s);
    }
  }

  /**
   Everything of the process that a snapshot carries, as far as no signal cut off
   a call that was to set it: `cut` has the numbers of such calls. Two bytes of
   the memory, those at the entry point of the fresh program, may be the opcode
   of an injected call if `lost`.
   */
  ghost predicate Preserved(image: Image, boot: Boot, s: Space, regs: seq<U64>, xstate: seq<Byte>,
                            fds: map<int, Slot>, files: seq<OpenFile>, exact: bool, lost: bool, cut: set<nat>)
    requires |boot.regs| == REGS_COUNT
  {
    && regs == image.regs && xstate == image.xstate
    && BytesPreserved(image, s, boot.regs[RIP], lost)
    && (ProtsUncut(cut) ==> ProtsPreserved(image, s))
    && (SYS_MREMAP !in cut ==> KernelMapsPreserved(image, boot.space, s))
    && FdsPreserved(image, fds, files, exact, Uncut(cut, SYS_FCNTL))
  }

  /**
   End to end: a child that was restored from a complete snapshot of a process
   has the process's registers, extended state, memory, protections, kernel
   mappings and descriptors.
   */
  lemma {:induction false} EndToEnd(file: seq<Byte>, image: Image, exact: bool, boot: Boot, s: Space, regs: seq<U64>, xstate: seq<Byte>,
                                    fds: map<int, Slot>, files: seq<OpenFile>, lost: bool, cut: set<nat>)
    requires SnapshotOf(file, image, exact) && ImageOk(image) && FilesOk(image) && BootFits(boot, image)
    requires Reader.Accepts(file)
    requires var r := Reader.Contents(file);
      && regs == r.header.regs && xstate == r.xstate && FdsRestored(fds, files, r.fds, r.pool, Uncut(cut, SYS_FCNTL))
      && (AreasOk(r.vmas) ==> BytesRestored(s, file, r.vmas, boot.regs[RIP], lost))
      && (Restorable(boot, Wanted(r.header), r.vmas) ==>
            && (ProtsUncut(cut) ==> ProtsRestored(s, r.vmas))
            && (SYS_MREMAP !in cut ==> MapsRestored(boot.space, s, Wanted(r.header))))
    ensures Preserved(image, boot, s, regs, xstate, fds, files, exact, lost, cut)
    ensures !lost || SiteNotCopied(image, boot.regs[RIP]) || OpcodeAt(image.mem, boot.regs[RIP]) ==>
      Preserved(image, boot, s, regs, xstate, fds, files, exact, false, cut)
  {
    hide Reader.Accepts, Reader.Contents, Restorable, BytesRestored, ProtsRestored, MapsRestored, FdsRestored, AreasOk;
    hide BytesPreserved, ProtsPreserved, FdsPreserved, Reader.FdTableOk;
    hide KernelMapsPreserved, ImageOk, FilesOk, SnapshotOf, Describes, Written, SiteNotCopied, OpcodeAt;
    hide LinesOk, Executable, KernelNamesDistinct, OfClass;
    var p := SnapshotHolds(file, image, exact);
    FdsEndToEnd(file, image, exact, fds, files, Uncut(cut, SYS_FCNTL));
    BytesEndToEnd(file, image, exact, s, boot.regs[RIP], lost);
    LayoutEndToEnd(file, image, exact, boot, s, ProtsUncut(cut), Uncut(cut, SYS_MREMAP));
    if !lost || SiteNotCopied(image, boot.regs[RIP]) || OpcodeAt(image.mem, boot.regs[RIP]) {
      LossDoesNoHarm(image, s, boot.regs[RIP], lost);
    }
  }

  lemma {:induction false} PoolDoesNotMatter(slots: map<int, Slot>, files: seq<OpenFile>, fds: seq<Fd>, pool: seq<Byte>, flags: bool)
    requires Reader.FdTableOk(fds, pool) && Reader.FdTableOk(fds, if fds == [] then [] else pool)
    requires FdsRestored(slots, files, fds, if fds == [] then [] else pool, flags)
    ensures FdsRestored(slots, files, fds, pool, flags)
  {
  }

  lemma {:induction false} ExactOrNot(image: Image, fds: map<int, Slot>, files: seq<OpenFile>, strong: bool, weak: bool, flags: bool)
    requires FdsPreserved(image, fds, files, strong, flags) && (weak ==> strong)
    ensures FdsPreserved(image, fds, files, weak, flags)
  {
    hide FdPreserved, CarriedOver;
    forall v, w | CarriedOver(image, v) && CarriedOver(image, w) ensures SharingPreserved(image, fds, v, w, weak) {
      assert SharingPreserved(image, fds, v, w, strong);
    }
  }

  lemma {:induction false} FilesStillOk(image: Image, seen: seq<FdView>)
    requires FilesOk(image) && Skimmed(image.fds, seen)
    ensures FilesOk(image.(fds := seen))
  {
    forall v | v in seen && ClassifyFd(v) == FdDump ensures v in image.fds {
      var i :| 0 <= i < |seen| && seen[i] == v;
    }
    hide ClassifyFd, HasBit, ClearBit;
    forall v, w | v in seen && w in seen && v.fd in image.fileOf && w.fd in image.fileOf
                  && image.fileOf[v.fd] == image.fileOf[w.fd] && v.info.Some? && w.info.Some?
      ensures v.info.value.position == w.info.value.position
      ensures ClearBit(v.info.value.flags, O_CLOEXEC) == ClearBit(w.info.value.flags, O_CLOEXEC)
    {
      var i :| 0 <= i < |seen| && seen[i] == v;
      var j :| 0 <= j < |seen| && seen[j] == w;
      assert image.fds[i] in image.fds && image.fds[j] in image.fds;
    }
  }

  // ----- nothing in the way -----

  /**
   The fresh program has every kernel mapping of the listing, with its size, and
   all of them lie above or all below every place they go to.
   */
  ghost predicate BootHasRoom(booted: set<Line>, lines: seq<RawLine>) {
    && (forall l :: l in OfClass(lines, VmaKernel) ==>
          exists m :: LowestNamed(booted, m) && m.name == l.path && m.size == l.Size())
    && (|| (forall l, m :: l in OfClass(lines, VmaKernel) && KernelNamed(booted, lines, m) ==> l.end <= m.start)
        || (forall l, m :: l in OfClass(lines, VmaKernel) && KernelNamed(booted, lines, m) ==> m.start + m.size <= l.start))
  }

  ghost predicate KernelNamed(booted: set<Line>, lines: seq<RawLine>, m: Line) {
    LowestNamed(booted, m) && exists l :: l in OfClass(lines, VmaKernel) && l.path == m.name
  }

  /** What is wanted is what was listed. */
  lemma {:induction false} WantedIs(maps: seq<KernelMap>, lines: seq<RawLine>, i: nat)
    requires LinesOrdered(lines) && KernelMapsOf(maps, OfClass(lines, VmaKernel)) && i < |maps|
    ensures var l := OfClass(lines, VmaKernel)[i];
      && l in OfClass(lines, VmaKernel) && NameOf(maps[i]) == l.path != [] && maps[i].size == l.Size() && maps[i].start == l.start
      && End(WantedLine(maps[i])) == l.end
  {
    hide LinesOrdered, NameOf, KernelMapOf, NoNul, MapsLine.Parsable;
    var l := OfClass(lines, VmaKernel)[i];
    NamePreserved(l);
    assert WantedLine(maps[i]).name == NameOf(maps[i]);
    MemberAligned(lines, VmaKernel, i);
    OfClassMember(lines, VmaKernel, i);
  }

  lemma {:induction false} OneLowest(lines: set<Line>, l: Line, m: Line)
    requires LinesOk(lines) && LowestNamed(lines, l) && LowestNamed(lines, m) && l.name == m.name
    ensures l == m
  {
  }

  lemma {:induction false} IsMet(booted: set<Line>, maps: seq<KernelMap>, lines: seq<RawLine>, i: nat)
    requires LinesOrdered(lines) && KernelMapsOf(maps, OfClass(lines, VmaKernel)) && i < |maps|
    requires LinesOk(booted) && BootHasRoom(booted, lines)
    ensures !Unmet(booted, maps[i])
  {
    hide LinesOrdered, NameOf, KernelMapOf, LinesOk, KernelMapsOf, End, KernelNamed;
    WantedIs(maps, lines, i);
    var m :| LowestNamed(booted, m) && m.name == NameOf(maps[i]) && m.size == maps[i].size;
    forall l | LowestNamed(booted, l) && l.name == NameOf(maps[i]) ensures l.size == maps[i].size {
      OneLowest(booted, l, m);
    }
    assert m in booted;
  }

  lemma {:induction false} RoomInBoot(booted: set<Line>, maps: seq<KernelMap>, lines: seq<RawLine>)
    requires LinesOrdered(lines) && KernelMapsOf(maps, OfClass(lines, VmaKernel)) && LinesOk(booted) && BootHasRoom(booted, lines)
    ensures RoomFor(booted, maps)
  {
    hide LinesOrdered, NameOf, KernelMapOf, LinesOk, End, Unmet, LowestNamed;
    forall i | 0 <= i < |maps| ensures !Unmet(booted, maps[i]) {
      IsMet(booted, maps, lines, i);
    }
    forall i | 0 <= i < |maps|
      ensures var l := OfClass(lines, VmaKernel)[i];
        l in OfClass(lines, VmaKernel) && maps[i].start == l.start && End(WantedLine(maps[i])) == l.end && NameOf(maps[i]) == l.path
    {
      WantedIs(maps, lines, i);
    }
    forall m | LowestWanted(booted, maps, m) ensures KernelNamed(booted, lines, m) && End(m) == m.start + m.size {
      NoWrap(booted, m);
    }
  }

  lemma {:induction false} NoWrap(lines: set<Line>, m: Line)
    requires LinesOk(lines) && LowestNamed(lines, m)
    ensures End(m) == m.start + m.size
  {
  }

  /** Every payload of a written snapshot can be read. */
  lemma {:induction false} PayloadsReadable(p: Parts, image: Image, file: seq<Byte>)
    requires Written(p, image, file)
    ensures forall i :: 0 <= i < |p.vmas| ==> !Unreadable(file, p.vmas[i])
  {
    FileSize(p, image, file);
    hide Describes, Regions, ImageOk;
    forall i | 0 <= i < |p.vmas| ensures !Unreadable(file, p.vmas[i]) {
      PayloadIsMemory(p, image, file, i);
    }
  }

  /** Offsets of carried descriptors are signed 64-bit positions. */
  predicate OffsetsSigned(image: Image) {
    forall v :: v in image.fds && ClassifyFd(v) == FdDump && v.info.Some? ==> v.info.value.position < TWO_63
  }

  lemma {:induction false} OffsetsUsable(image: Image, fds: seq<Fd>, pool: seq<Byte>)
    requires FdsCollected(image, fds, pool) && OffsetsSigned(image)
    ensures forall i :: 0 <= i < |fds| ==> !Unseekable(fds[i])
  {
    hide ClassifyFd, StringAt, HasBit;
    forall i | 0 <= i < |fds| ensures !Unseekable(fds[i]) {
      assert FromSomeView(image, fds[i], pool);
    }
  }

  /** A fresh program that leaves room and has the kernel mappings gives a restore no reason to refuse. */
  lemma {:induction false} NothingWrong(file: seq<Byte>, image: Image, exact: bool, boot: Boot)
    requires SnapshotOf(file, image, exact) && ImageOk(image) && FilesOk(image) && Reader.Accepts(file)
    requires BootFits(boot, image) && BootHasRoom(boot.space.lines, image.lines) && OffsetsSigned(image)
    ensures NothingInTheWay(boot, file, Reader.Contents(file))
  {
    hide Payload, Reader.Accepts, Reader.Contents, FilesOk, LinesOrdered, FdsConsistent, RecordsAll, KernelMapsOf, FdsCollected, FdsLinked;
    hide Laid, AllMapped, Regions, SnapshotOf, FileOf, LinesOk, KernelNamesDistinct, Executable, OfClass, Reader.FdTableOk, BootHasRoom;
    hide RoomFor, Movable, Unreadable, Unseekable, Wanted, OffsetsSigned;
    var p := SnapshotHolds(file, image, exact);
    RoomInBoot(boot.space.lines, p.kernelMaps, image.lines);
    PayloadsReadable(p, image, file);
    OffsetsUsable(image, p.fds, p.pool);
    FitsMeansRestorable(p, image, boot);
  }

  /**
   A restore of a snapshot of `image`. It succeeds when no call fails and the
   fresh program leaves room and has the kernel mappings to move.
   */
  method RestoreSnapshot(c: Tracee, file: seq<Byte>, boot: Boot, ghost image: Image, ghost exact: bool) returns (ok: bool)
    requires SnapshotOf(file, image, exact) && ImageOk(image) && FilesOk(image)
    requires c.phase == Forked && !c.lost && c.reported == [] && c.partings == [] && !c.xstateSet && !c.endSeen && !c.untraced && !c.failed
    requires SlotsOk(c.fds, |c.files|) && |boot.regs| == REGS_COUNT
    modifies c
    ensures c.disk == old(c.disk)
    ensures ok ==> c.partings == [Parting.DetachTried(true)] || c.partings == [Parting.DetachTried(false)]
    ensures c.phase == Released <==> c.partings == [Parting.DetachTried(true)]
    ensures !c.failed && BootFits(boot, image) && BootHasRoom(boot.space.lines, image.lines) && OffsetsSigned(image) ==> ok
    ensures ok ==> !c.failed
    ensures ok ==> c.regs == image.regs && c.xstate == image.xstate && BytesPreserved(image, c.space, boot.regs[RIP], c.lost)
    ensures ok ==> FdsPreserved(image, c.fds, c.files, exact, Made(boot.space, boot.regs[RIP], c.cut, SYS_FCNTL))
    ensures ok && BootFits(boot, image) ==>
      && Preserved(image, boot, c.space, c.regs, c.xstate, c.fds, c.files, exact, c.lost, c.cut)
      && (!c.lost || SiteNotCopied(image, boot.regs[RIP]) || OpcodeAt(image.mem, boot.regs[RIP]) ==>
            Preserved(image, boot, c.space, c.regs, c.xstate, c.fds, c.files, exact, false, c.cut))
  {
    hide SnapshotOf, ImageOk, FilesOk, BytesPreserved, ProtsPreserved, KernelMapsPreserved, Reader.Accepts, Reader.Contents, Restorable;
    hide BytesRestored, ProtsRestored, MapsRestored, FdsRestored, AreasOk, MapsRefused, Usable, NothingInTheWay, BootHasRoom, OffsetsSigned;
    hide FdsPreserved, Executable, Scripted, SiteNotCopied, OpcodeAt, BootFits, OfClass, Preserved, ProtsUncut;
    hide Describes, Written, Reader.FdTableOk, SlotsOk, Wanted, Header.Shaped;
    SnapshotAccepted(file, image, exact);
    if BootFits(boot, image) && BootHasRoom(boot.space.lines, image.lines) && OffsetsSigned(image) {
      NothingWrong(file, image, exact, boot);
    }
    ok := Restore(c, file, boot);
    if ok {
      ghost var p := SnapshotHolds(file, image, exact);
      FdsEndToEnd(file, image, exact, c.fds, c.files, Made(boot.space, boot.regs[RIP], c.cut, SYS_FCNTL));
      BytesEndToEnd(file, image, exact, c.space, boot.regs[RIP], c.lost);
      if BootFits(boot, image) {
        FitsExecutable(boot, image);
        EndToEnd(file, image, exact, boot, c.space, c.regs, c.xstate, c.fds, c.files, c.lost, c.cut);
      }
    }
  }

  lemma {:induction false} FitsExecutable(boot: Boot, image: Image)
    requires BootFits(boot, image)
    ensures Executable(boot.space, boot.regs[RIP])
  {
    hide Executable, LinesOk, KernelNamesDistinct;
  }

  /**
   A dump followed by a restore of the file it left. When both report success,
   the child the engine let go of has the registers, the extended state, every
   byte of the memory and the descriptors of the process that was dumped. If the
   fresh program left room and its entry point could be executed, it also has
   the flags, the protections and the kernel mappings, each as far as no signal
   cut off a step that was to set them. The descriptors are those the dump got
   to see, which are all of them if reading the directory did not break off and
   no answer was lost.

   The one thing that can differ in the bytes is the two at the entry point, if
   an instruction could not be put back, they belong to the process and they
   were not the opcode anyway. Shared files are all found when no comparison
   failed.

   And both do succeed: the dump if no call fails, no answer is lost and a
   snapshot can hold the process, the restore if no call fails, offsets are signed
   positions, and the fresh program leaves room and has the kernel mappings.
   Neither succeeds if a call it looks at has failed.
   */
  method DumpThenRestore(host: Host, kill: bool, c: Tracee, boot: Boot) returns (dumped: bool, restored: bool)
    requires ImageOk(host.image) && FilesOk(host.image) && !host.kcmpBroken && host.events == []
    requires c.phase == Forked && !c.lost && c.reported == [] && c.partings == [] && !c.xstateSet && !c.endSeen && !c.untraced && !c.failed
    requires SlotsOk(c.fds, |c.files|) && |boot.regs| == REGS_COUNT
    modifies host, c
    ensures !dumped ==> host.denied || host.answerLost || !Dumper.Dumpable(host.image)
    ensures dumped && !restored ==>
      c.failed || !BootFits(boot, host.image) || !BootHasRoom(boot.space.lines, host.image.lines) || !OffsetsSigned(host.image)
    ensures (dumped ==> host.denied == old(host.denied)) && (restored ==> !c.failed)
    ensures restored ==> dumped && (c.partings == [Parting.DetachTried(true)] || c.partings == [Parting.DetachTried(false)])
    ensures c.phase == Released <==> c.partings == [Parting.DetachTried(true)]
    ensures c.disk == old(c.disk)
    ensures restored ==> Skimmed(host.image.fds, host.seen) && (host.SawAll() ==> host.Seen() == host.image)
    ensures restored ==> c.regs == host.image.regs && c.xstate == host.image.xstate
    ensures restored ==> BytesPreserved(host.image, c.space, boot.regs[RIP], c.lost)
    ensures restored ==>
      FdsPreserved(host.Seen(), c.fds, c.files, !host.kcmpBroken, Made(boot.space, boot.regs[RIP], c.cut, SYS_FCNTL))
    ensures restored && host.SawAll() ==>
      FdsPreserved(host.image, c.fds, c.files, !host.kcmpBroken, Made(boot.space, boot.regs[RIP], c.cut, SYS_FCNTL))
    ensures restored && BootFits(boot, host.image) ==>
      Preserved(host.Seen(), boot, c.space, c.regs, c.xstate, c.fds, c.files, !host.kcmpBroken, c.lost, c.cut)
    ensures restored && BootFits(boot, host.image)
            && (!c.lost || SiteNotCopied(host.image, boot.regs[RIP]) || OpcodeAt(host.image.mem, boot.regs[RIP])) ==>
      Preserved(host.Seen(), boot, c.space, c.regs, c.xstate, c.fds, c.files, !host.kcmpBroken, false, c.cut)
  {
    hide SnapshotOf, ImageOk, FilesOk, BytesPreserved, Skimmed, Executable, BootHasRoom, Dumper.Dumpable, OffsetsSigned;
    hide FdsPreserved, SiteNotCopied, OpcodeAt, BootFits, OfClass, Preserved, FdsOfClass;
    hide Dumper.RunEvents, Dumper.EndingAllowed, SlotsOk;
    var run;
    dumped, run := Dumper.Dump(host, kill);
    restored := false;
    if dumped {
      ghost var image, exact := host.Seen(), !host.kcmpBroken;
      Dumper.SeenOk(host.image, host.seen);
      FilesStillOk(host.image, host.seen);
      StillFits(boot, host.image, host.seen);
      StillSigned(host.image, host.seen);
      restored := RestoreSnapshot(c, host.disk, boot, image, exact);
      SameMemory(host.image, host.seen, c.space, boot.regs[RIP], c.lost);
    } else {
      assert c.partings != [Parting.DetachTried(true)] by { assert |c.partings| == 0; }
    }
  }

  lemma {:induction false} StillSigned(image: Image, seen: seq<FdView>)
    requires Skimmed(image.fds, seen)
    ensures OffsetsSigned(image) ==> OffsetsSigned(image.(fds := seen))
  {
    forall v | v in seen && ClassifyFd(v) == FdDump ensures v in image.fds {
      var i :| 0 <= i < |seen| && seen[i] == v;
    }
  }

  lemma {:induction false} SameMemory(image: Image, seen: seq<FdView>, s: Space, at: int, lost: bool)
    ensures BytesPreserved(image.(fds := seen), s, at, lost) <==> BytesPreserved(image, s, at, lost)
  {
  }

  /** What is asked of the fresh program, and the two exceptions, do not depend on the descriptors. */
  lemma {:induction false} StillFits(boot: Boot, image: Image, seen: seq<FdView>)
    requires |boot.regs| == REGS_COUNT
    ensures BootFits(boot, image.(fds := seen)) <==> BootFits(boot, image)
    ensures SiteNotCopied(image.(fds := seen), boot.regs[RIP]) <==> SiteNotCopied(image, boot.regs[RIP])
  {
    hide LinesOk, Executable, KernelNamesDistinct;
  }
}
