/** The run of a whole restore, under any schedule of failures. */
module Restorer {
  import opened Bytes
  import opened DumpFormat
  import opened AddressSpace
  import opened Child
  import opened KernelMaps
  import opened Areas
  import opened Descriptors
  import Reader

  /** What the kernel sets up for a program when it is started: its memory and its registers. */
  datatype Boot = Boot(space: Space, regs: seq<U64>)

  /** The recorded kernel mappings. */
  function Wanted(h: Header): seq<KernelMap>
    requires h.Shaped() && h.kernelMapCount <= MAX_KERNEL_MAPS
  {
    h.kernelMaps[..h.kernelMapCount]
  }

  predicate AreasClear(wanted: seq<KernelMap>, vmas: seq<Vma>) {
    forall i, j :: 0 <= i < |wanted| && 0 <= j < |vmas| ==> Apart(wanted[i].start, wanted[i].size, vmas[j].start, vmas[j].size)
  }

  /** The fresh program leaves room for the snapshot, and its entry point is clear of what moves. */
  ghost predicate Restorable(boot: Boot, wanted: seq<KernelMap>, vmas: seq<Vma>)
    requires |boot.regs| == REGS_COUNT
  {
    && Movable(boot.space, wanted, boot.regs[RIP])
    && AreasOk(vmas) && SiteTogether(vmas, boot.regs[RIP])
    && AreasClear(wanted, vmas)
  }

  /** Every area holds its payload. Two bytes at `at` may be the opcode of an instruction that could not be put back. */
  ghost predicate BytesRestored(s: Space, file: seq<Byte>, vmas: seq<Vma>, at: int, lost: bool) {
    forall i :: 0 <= i < |vmas| ==> Filled(s, file, vmas[i], vmas[i].size, at, lost)
  }

  /** Every area has its recorded protection. */
  ghost predicate ProtsRestored(s: Space, vmas: seq<Vma>) {
    forall i :: 0 <= i < |vmas| ==> HasProt(s, vmas[i], vmas[i].prot)
  }

  /** Every kernel mapping of the fresh program is at its recorded place, cell for cell. */
  ghost predicate MapsRestored(boot: Space, s: Space, wanted: seq<KernelMap>) {
    forall i :: 0 <= i < |wanted| ==> Brought(boot, s, wanted[i])
  }

  /** No protection depends on a call of these numbers that a signal kept from being made. */
  predicate ProtsUncut(cut: set<nat>) {
    SYS_MMAP !in cut && SYS_MPROTECT !in cut
  }

  /**
   The descriptors above stdio are those of the table, with its files and its
   sharing, and with its flags if every call was made.
   */
  ghost predicate FdsRestored(fds: map<int, Slot>, files: seq<OpenFile>, table: seq<Fd>, pool: seq<Byte>, exact: bool)
    requires Reader.FdTableOk(table, pool)
  {
    && (forall k :: k > 2 ==> (k in fds <==> k in Numbers(table, |table|)))
    && (forall i :: 0 <= i < |table| ==> EntryRestored(fds, files, table[i], pool, exact))
    && (forall i, j :: 0 <= i < |table| && 0 <= j < |table| && table[i].fd as int in fds && table[j].fd as int in fds ==>
          (fds[table[i].fd].file == fds[table[j].fd].file <==> Reader.Root(table, pool, i) == Reader.Root(table, pool, j)))
  }

  predicate EntryRestored(fds: map<int, Slot>, files: seq<OpenFile>, e: Fd, pool: seq<Byte>, exact: bool) {
    && e.fd as int in fds
    && (fds[e.fd].cloexec ==> HasBit(e.flags, O_CLOEXEC))
    && (exact && HasBit(e.flags, O_CLOEXEC) ==> fds[e.fd].cloexec)
    && (e.dupOf == -1 ==> fds[e.fd].file < |files| && e.pathOffset <= |pool| && files[fds[e.fd].file] == Reopened(e, pool))
  }

  /** The descriptors that survive the start of the program. */
  function Survivors(fds: map<int, Slot>): map<int, Slot> {
    map n | n in fds && !fds[n].cloexec :: fds[n]
  }

  /**
   The forked child: opens the files, then starts the program, which the engine
   sees stop, end, or do neither. A failure before the start only ends it. Asking
   to be traced is not checked: a program started without it runs to its end
   with the files open, and that end is all the engine sees. Nothing but a failed
   call or an offset that is no file position keeps the child from stopping, and no
   file is created or emptied for it.
   */
  method SpawnTracedChild(c: Tracee, table: seq<Fd>, pool: seq<Byte>, boot: Boot)
    returns (ghost base: map<int, Slot>, ghost placed: map<int, Slot>)
    requires Reader.FdTableOk(table, pool) && SlotsOk(c.fds, |c.files|)
    modifies c`fds, c`files, c`space, c`regs, c`phase, c`untraced, c`failed, c`disk
    ensures (if c.phase == Stopped then c.failed == old(c.failed) else old(c.failed) ==> c.failed) && c.disk == old(c.disk)
    ensures c.phase != Stopped ==> c.failed || exists i :: 0 <= i < |table| && Unseekable(table[i])
    ensures c.phase == Stopped ==> !exists i :: 0 <= i < |table| && Unseekable(table[i])
    ensures c.phase in {Stopped, Exited, Signaled, Running}
    ensures c.untraced && !old(c.untraced) ==> c.phase in {Exited, Signaled}
    ensures c.untraced && !old(c.untraced) ==> c.fds == Survivors(placed) && Placed(base, old(|c.files|), placed, c.files, table, pool, |table|)
    ensures BaseOk(base, old(|c.files|))
    ensures c.phase == Stopped ==> c.space == boot.space && c.regs == boot.regs && c.fds == Survivors(placed)
    ensures c.phase == Stopped ==> Placed(base, old(|c.files|), placed, c.files, table, pool, |table|)
  {
    hide Placed, Unseekable;
    var filesOpened;
    filesOpened, base := OpenSnapshotFds(c, table, pool);
    placed := c.fds;
    if !filesOpened {
      c.phase := Exited;
      return;
    }
    var traced := c.AskForTrace(); // its result is not looked at
    var started := c.Exec(boot.space, boot.regs, traced);
    if !started {
      c.phase := Exited;
      return;
    }
    c.AwaitStop(traced);
  }

  lemma {:induction false} SurvivorsPlaced(base: map<int, Slot>, count: nat, placed: map<int, Slot>, files: seq<OpenFile>,
                                           table: seq<Fd>, pool: seq<Byte>, i: nat)
    requires i < |table| && Placed(base, count, placed, files, table, pool, |table|)
    ensures table[i].fd as int in Survivors(placed)
    ensures Survivors(placed)[table[i].fd] == placed[table[i].fd]
    ensures table[i].dupOf == -1 ==> placed[table[i].fd].file < |files| && table[i].pathOffset <= |pool|
    ensures table[i].dupOf == -1 ==> files[placed[table[i].fd].file] == Reopened(table[i], pool)
    ensures !placed[table[i].fd].cloexec
  {
    assert EntryPlaced(placed, files, table, pool, i);
  }

  /** From the table put in place, through the start of the program, to the flags given back. */
  lemma {:induction false} DescriptorsBack(base: map<int, Slot>, count: nat, placed: map<int, Slot>, fds: map<int, Slot>,
                                           files: seq<OpenFile>, table: seq<Fd>, pool: seq<Byte>, exact: bool)
    requires Reader.FdTableOk(table, pool) && BaseOk(base, count)
    requires Placed(base, count, placed, files, table, pool, |table|)
    requires Flagged(Survivors(placed), fds, table, |table|, exact)
    ensures FdsRestored(fds, files, table, pool, exact)
  {
    hide Placed, Reader.FdTableOk, Reopened, BaseOk;
    forall i | 0 <= i < |table| ensures EntryRestored(fds, files, table[i], pool, exact) {
      SurvivorsPlaced(base, count, placed, files, table, pool, i);
    }
    forall k | k > 2 ensures k in fds <==> k in Numbers(table, |table|) {
      NumbersAbove(base, count, placed, files, table, pool, k);
    }
    forall i, j | 0 <= i < |table| && 0 <= j < |table| && table[i].fd as int in fds && table[j].fd as int in fds
      ensures fds[table[i].fd].file == fds[table[j].fd].file <==> Reader.Root(table, pool, i) == Reader.Root(table, pool, j)
    {
      SurvivorsPlaced(base, count, placed, files, table, pool, i);
      SurvivorsPlaced(base, count, placed, files, table, pool, j);
      SharedIffSameRoot(base, count, placed, files, table, pool, i, j);
    }
  }

  lemma {:induction false} NumbersAbove(base: map<int, Slot>, count: nat, placed: map<int, Slot>, files: seq<OpenFile>,
                                        table: seq<Fd>, pool: seq<Byte>, k: int)
    requires BaseOk(base, count) && Placed(base, count, placed, files, table, pool, |table|) && k > 2
    ensures k in Survivors(placed) <==> k in Numbers(table, |table|)
  {
    NumberOf(table, |table|, k);
    if k in Numbers(table, |table|) {
      var i :| 0 <= i < |table| && table[i].fd == k;
      SurvivorsPlaced(base, count, placed, files, table, pool, i);
    }
  }

  // ----- the parent's side -----

  /** Addresses of wanted places are in no area and are not those of the injected instruction. */
  lemma {:induction false} WantedElsewhere(vmas: seq<Vma>, wanted: seq<KernelMap>, i: nat, a: int, at: int)
    requires i < |wanted| && In(a, wanted[i].start, wanted[i].size) && AreasClear(wanted, vmas)
    requires Apart(at, 8, wanted[i].start, wanted[i].size)
    ensures OutsideFirst(a, vmas, |vmas|) && a != at && a != at + 1
  {
  }

  /** Restoring the areas leaves the kernel mappings that were brought where they are. */
  lemma {:induction false} BroughtThroughAreas(boot: Space, before: Space, s: Space, file: seq<Byte>, vmas: seq<Vma>,
                                               wanted: seq<KernelMap>, i: nat, at: int, lost: bool, mapped: bool)
    requires i < |wanted| && AreasClear(wanted, vmas) && Apart(at, 8, wanted[i].start, wanted[i].size)
    requires Brought(boot, before, wanted[i]) && AreasRestored(before, s, file, vmas, |vmas|, at, lost, mapped)
    ensures Brought(boot, s, wanted[i])
  {
    hide LowestNamed, NameOf, Filled, HasProt, AreasClear;
    var k := wanted[i];
    var l :| BroughtFrom(boot, before, l, k);
    forall a | In(a, k.start, l.size)
      ensures a in s.cells && a - k.start + l.start in boot.cells && s.cells[a] == boot.cells[a - k.start + l.start]
    {
      WantedElsewhere(vmas, wanted, i, a, at);
      assert a in before.cells;
    }
    assert BroughtFrom(boot, s, l, k);
    assert WantedLine(k) in s.lines by {
      forall j | 0 <= j < |vmas| ensures Apart(k.start, k.size, vmas[j].start, vmas[j].size) { ClearAt(wanted, vmas, i, j); }
    }
  }

  lemma {:induction false} ClearAt(wanted: seq<KernelMap>, vmas: seq<Vma>, i: nat, j: nat)
    requires AreasClear(wanted, vmas) && i < |wanted| && j < |vmas|
    ensures Apart(wanted[i].start, wanted[i].size, vmas[j].start, vmas[j].size)
  {
  }

  lemma {:induction false} BroughtThroughProtections(boot: Space, before: Space, s: Space, vmas: seq<Vma>,
                                                     wanted: seq<KernelMap>, i: nat, at: int, lost: bool, exact: bool)
    requires i < |wanted| && AreasClear(wanted, vmas) && Apart(at, 8, wanted[i].start, wanted[i].size)
    requires Brought(boot, before, wanted[i]) && AllProtected(before, s, vmas, at, lost, exact)
    ensures Brought(boot, s, wanted[i])
  {
    hide LowestNamed, NameOf, HasProt, AreasClear;
    var k := wanted[i];
    var l :| BroughtFrom(boot, before, l, k);
    forall a | In(a, k.start, l.size)
      ensures a in s.cells && a - k.start + l.start in boot.cells && s.cells[a] == boot.cells[a - k.start + l.start]
    {
      WantedElsewhere(vmas, wanted, i, a, at);
      assert a in before.cells;
    }
    assert BroughtFrom(boot, s, l, k);
  }

  /** What was brought from the space an opcode may have been left in was brought from the space before it. */
  lemma {:induction false} BroughtFromBoot(boot: Space, before: Space, s: Space, wanted: seq<KernelMap>, i: nat, at: int, lost: bool)
    requires i < |wanted| && Left(boot, before, at, lost) && Brought(before, s, wanted[i]) && SiteClear(boot.lines, wanted, at)
    ensures Brought(boot, s, wanted[i])
  {
    hide NameOf;
    var k := wanted[i];
    var l :| BroughtFrom(before, s, l, k);
    forall a | In(a, k.start, l.size)
      ensures a in s.cells && a - k.start + l.start in boot.cells && s.cells[a] == boot.cells[a - k.start + l.start]
    {
      PlantedAt(boot, at, a - k.start + l.start);
      assert In(a - k.start + l.start, l.start, l.size);
    }
    assert BroughtFrom(boot, s, l, k);
  }

  lemma {:induction false} AreasMapped(s: Space, before: Space, file: seq<Byte>, vmas: seq<Vma>, site: int, lost: bool)
    requires AreasOk(vmas) && SiteTogether(vmas, site)
    requires AreasRestored(before, s, file, vmas, |vmas|, site, lost, true) && Executable(s, site)
    ensures ReadyToProtect(s, vmas, site)
  {
    hide Filled, HasProt, CellKept;
  }

  lemma {:induction false} FilledBack(s: Space, s': Space, file: seq<Byte>, v: Vma, at: int, lost: bool, lost': bool)
    requires Filled(s, file, v, v.size, at, lost) && (lost ==> lost') && s'.cells.Keys == s.cells.Keys
    requires forall a :: a in s.cells ==> ByteKept(s.cells[a].value, s'.cells[a].value, a, at, lost')
    ensures Filled(s', file, v, v.size, at, lost')
  {
  }

  /** Protecting does not touch the bytes, whichever calls were made. */
  lemma {:induction false} BytesBack(before: Space, s: Space, s': Space, file: seq<Byte>, vmas: seq<Vma>, at: int,
                                     lost: bool, lost': bool, mapped: bool, exact: bool)
    requires AreasRestored(before, s, file, vmas, |vmas|, at, lost, mapped) && (lost ==> lost')
    requires AllProtected(s, s', vmas, at, lost', exact)
    ensures BytesRestored(s', file, vmas, at, lost')
  {
    hide HasProt, CellKept, Filled, ByteKept, OutsideFirst;
    forall i | 0 <= i < |vmas| ensures Filled(s', file, vmas[i], vmas[i].size, at, lost') {
      FilledBack(s, s', file, vmas[i], at, lost, lost');
    }
  }

  /** The kernel mappings stay where they were brought while areas are mapped and protected around them. */
  lemma {:induction false} MapsBack(before: Space, moved: Space, filled: Space, after: Space, file: seq<Byte>, vmas: seq<Vma>,
                                    found: seq<Line>, wanted: seq<KernelMap>, at: int, lost: bool, lost': bool, lost'': bool,
                                    mapped: bool, exact: bool)
    requires AreasClear(wanted, vmas) && SiteClear(before.lines, wanted, at)
    requires Relocated(before, moved, found, wanted, at, lost, false)
    requires AreasRestored(moved, filled, file, vmas, |vmas|, at, lost', mapped)
    requires AllProtected(filled, after, vmas, at, lost'', exact)
    ensures MapsRestored(before, after, wanted)
  {
    hide AreasClear, Brought, AllProtected, AreasRestored, ElsewhereKept;
    forall i | 0 <= i < |wanted| ensures Brought(before, after, wanted[i]) {
      assert Apart(at, 8, wanted[i].start, wanted[i].size);
      BroughtThroughAreas(before, moved, filled, file, vmas, wanted, i, at, lost', mapped);
      BroughtThroughProtections(before, filled, after, vmas, wanted, i, at, lost'', exact);
    }
  }

  lemma {:induction false} ProtsBack(s: Space, s': Space, vmas: seq<Vma>, at: int, lost: bool)
    requires AllProtected(s, s', vmas, at, lost, true)
    ensures ProtsRestored(s', vmas)
  {
    hide HasProt;
  }

  /**
   Everything the rebuild of the memory sees succeed, in order: the survey and
   the moves of the kernel mappings, each area with all its bytes, and the
   protections, the one of the area that holds the site last.
   */
  function MemorySteps(found: seq<Line>, from: seq<Line>, wanted: seq<KernelMap>, file: seq<Byte>, vmas: seq<Vma>, site: nat): seq<Report>
    requires |from| == |wanted| && site <= |vmas| && PayloadsInside(file, vmas)
  {
    KernelMapSteps(found, from, wanted) + (AreaSteps(file, vmas) + (MprotectCalls(vmas, |vmas|, site) + LastProtect(vmas, site)))
  }

  /** The memory was rebuilt by exactly these steps, and each of them was right for what was asked. */
  ghost predicate MemoryScript(steps: seq<Report>, found: seq<Line>, from: seq<Line>, site: nat,
                               lines: set<Line>, file: seq<Byte>, wanted: seq<KernelMap>, vmas: seq<Vma>, at: U64)
  {
    && SurveyPassed(lines, found, wanted) && NamedAs(from, wanted)
    && PayloadsInside(file, vmas) && FirstSite(vmas, site, at)
    && steps == MemorySteps(found, from, wanted, file, vmas, site)
  }

  /**
   Kernel mappings, areas, protections, in this order. The bytes are there
   afterwards whatever became of the calls. The protections are if the mapping
   and protecting calls were made, the kernel mappings if the moving calls were.
   It fails for a failed call, kernel mappings that cannot be moved, or a payload
   that cannot be read.
   */
  method RebuildMemory(c: Tracee, file: seq<Byte>, wanted: seq<KernelMap>, vmas: seq<Vma>)
    returns (ok: bool, ghost steps: seq<Report>, ghost found: seq<Line>, ghost from: seq<Line>, ghost last: nat)
    requires c.Live()
    modifies c`space, c`regs, c`fds, c`lost, c`reported, c`cut, c`phase, c`endSeen, c`failed
    ensures c.Followed() && (ok ==> c.Live()) && (old(c.lost) ==> c.lost) && old(c.cut) <= c.cut
    ensures if ok then c.failed == old(c.failed) else old(c.failed) ==> c.failed
    ensures !ok ==>
      || c.failed || MapsRefused(old(c.space), c.space, wanted, old(c.regs[RIP]))
      || exists i :: 0 <= i < |vmas| && Unreadable(file, vmas[i])
    ensures ok ==> !exists i :: 0 <= i < |vmas| && Unreadable(file, vmas[i])
    ensures ok ==> c.reported == old(c.reported) + steps
    ensures ok ==> MemoryScript(steps, found, from, last, old(c.space.lines), file, wanted, vmas, old(c.regs[RIP]))
    ensures ok ==> c.regs == old(c.regs) && c.fds == old(c.fds)
    ensures ok && AreasOk(vmas) ==> BytesRestored(c.space, file, vmas, old(c.regs[RIP]), c.lost)
    ensures ok && Restorable(Boot(old(c.space), old(c.regs)), wanted, vmas) && ProtsUncut(c.cut) ==> ProtsRestored(c.space, vmas)
    ensures ok && Restorable(Boot(old(c.space), old(c.regs)), wanted, vmas) && SYS_MREMAP !in c.cut ==>
      MapsRestored(old(c.space), c.space, wanted)
  {
    hide Relocated, AreasRestored, AllProtected, ReadyToProtect, WantedOk, LinesOk, SiteClear, AreasOk, SiteTogether, AreasClear, Executable;
    hide BytesRestored, ProtsRestored, MapsRestored, SurveyPassed, NamedAs, PayloadsInside, FirstSite, KernelMapSteps, AreaSteps;
    hide MprotectCalls, LastProtect, MapsRefused, Unreadable;
    ghost var restorable, site, before := Restorable(Boot(c.space, c.regs), wanted, vmas), c.regs[RIP], c.space;
    steps, last := [], 0;
    ok, found, from := RestoreKernelMaps(c, wanted);
    if !ok {
      return;
    }
    ghost var moved, lost := c.space, c.lost;
    ok := RestoreAreas(c, file, vmas);
    if !ok {
      return;
    }
    ghost var filled, lost', mapped := c.space, c.lost, Made(moved, site, c.cut, SYS_MMAP);
    ok, last := RestoreProtections(c, vmas);
    if ok {
      steps := StepsOf(found, from, wanted, file, vmas, last, site);
      ghost var exact := Protectable(filled, vmas, site, c.cut);
      if AreasOk(vmas) {
        BytesBack(moved, filled, c.space, file, vmas, site, lost', c.lost, mapped, exact);
      }
      if restorable && ProtsUncut(c.cut) {
        AreasMapped(filled, moved, file, vmas, site, lost');
        ProtsBack(filled, c.space, vmas, site, c.lost);
      }
      if restorable && SYS_MREMAP !in c.cut {
        MapsBack(before, moved, filled, c.space, file, vmas, found, wanted, site, lost, lost', c.lost, mapped, exact);
      }
    }
  }

  lemma {:induction false} StepsOf(found: seq<Line>, from: seq<Line>, wanted: seq<KernelMap>, file: seq<Byte>, vmas: seq<Vma>, site: nat, at: U64)
    returns (steps: seq<Report>)
    requires NamedAs(from, wanted) && PayloadsInside(file, vmas) && FirstSite(vmas, site, at)
    ensures |from| == |wanted| && site <= |vmas| && steps == MemorySteps(found, from, wanted, file, vmas, site)
  {
    steps := MemorySteps(found, from, wanted, file, vmas, site);
  }

  /**
   The complete path of a rebuild, whatever the snapshot says: every descriptor
   that asks for it was marked, every kernel mapping was looked up, measured and
   moved, every area was mapped and every byte of its payload written, every
   protection was set, in this order and with nothing else in between.
   */
  ghost predicate Scripted(before: seq<Report>, after: seq<Report>, lines: set<Line>, file: seq<Byte>,
                           table: seq<Fd>, wanted: seq<KernelMap>, vmas: seq<Vma>, at: U64)
  {
    exists steps, found, from, site ::
      && MemoryScript(steps, found, from, site, lines, file, wanted, vmas, at)
      && after == before + CloexecCalls(table) + steps
  }

  /** Everything between the stop of the child and the point where it is released or killed. */
  method RebuildChild(c: Tracee, file: seq<Byte>, s: Reader.Snapshot) returns (ok: bool)
    requires c.Live() && Reader.FdTableOk(s.fds, s.pool) && s.header.Shaped() && s.header.kernelMapCount <= MAX_KERNEL_MAPS
    modifies c`space, c`regs, c`fds, c`lost, c`reported, c`cut, c`phase, c`endSeen, c`failed, c`xstate, c`xstateSet
    ensures c.Followed() && (ok ==> c.Live()) && (old(c.lost) ==> c.lost) && old(c.cut) <= c.cut
    ensures if ok then c.failed == old(c.failed) else old(c.failed) ==> c.failed
    ensures !ok ==>
      || c.failed || MapsRefused(old(c.space), c.space, Wanted(s.header), old(c.regs[RIP]))
      || exists i :: 0 <= i < |s.vmas| && Unreadable(file, s.vmas[i])
    ensures ok ==> !exists i :: 0 <= i < |s.vmas| && Unreadable(file, s.vmas[i])
    ensures c.xstateSet == (old(c.xstateSet) || ok)
    ensures ok ==> c.regs == s.header.regs && c.xstate == s.xstate
    ensures ok ==> Scripted(old(c.reported), c.reported, old(c.space.lines), file, s.fds, Wanted(s.header), s.vmas, old(c.regs[RIP]))
    ensures ok ==>
      Flagged(old(c.fds), c.fds, s.fds, |s.fds|, Made(old(c.space), old(c.regs[RIP]), c.cut, SYS_FCNTL))
    ensures ok && AreasOk(s.vmas) ==> BytesRestored(c.space, file, s.vmas, old(c.regs[RIP]), c.lost)
    ensures ok && Restorable(Boot(old(c.space), old(c.regs)), Wanted(s.header), s.vmas) && ProtsUncut(c.cut) ==>
      ProtsRestored(c.space, s.vmas)
    ensures ok && Restorable(Boot(old(c.space), old(c.regs)), Wanted(s.header), s.vmas) && SYS_MREMAP !in c.cut ==>
      MapsRestored(old(c.space), c.space, Wanted(s.header))
  {
    hide BytesRestored, ProtsRestored, MapsRestored, Flagged, Reader.FdTableOk, Executable, Left, Restorable, MemoryScript, CloexecCalls, AreasOk;
    hide MapsRefused, Unreadable, Wanted;
    ok := c.Try(); // the memory file of the child
    if !ok {
      return;
    }
    TableOrdered(s.fds, s.pool);
    ghost var boot, site := c.space, c.regs[RIP];
    var wanted := Wanted(s.header);
    ok := RestoreFdFlags(c, s.fds);
    if !ok {
      return;
    }
    ghost var before, lost, cut, fds := c.space, c.lost, c.cut, c.fds;
    ghost var steps, found, from, last;
    LeftExecutable(boot, before, site, lost);
    ok, steps, found, from, last := RebuildMemory(c, file, wanted, s.vmas);
    if !ok {
      RefusedFromBoot(boot, before, c.space, wanted, site, lost);
      return;
    }
    FlaggedLess(old(c.fds), fds, s.fds, |s.fds|, Made(boot, site, cut, SYS_FCNTL), Made(boot, site, c.cut, SYS_FCNTL));
    if Restorable(Boot(boot, c.regs), wanted, s.vmas) {
      StillRestorable(boot, before, c.regs, wanted, s.vmas, lost);
      if SYS_MREMAP !in c.cut {
        MapsFromBoot(boot, before, c.space, wanted, s.vmas, c.regs, lost);
      }
    }
    ok := c.SetRegs(s.header.regs);
    if !ok {
      return;
    }
    ok := c.SetXstate(s.xstate);
  }

  /** A reason against the kernel mappings that holds after the flags were given back held before. */
  lemma {:induction false} RefusedFromBoot(boot: Space, before: Space, after: Space, wanted: seq<KernelMap>, site: int, lost: bool)
    requires Left(boot, before, site, lost)
    ensures MapsRefused(before, after, wanted, site) ==> MapsRefused(boot, after, wanted, site)
  {
    hide Executable, WantedOk, LinesOk, SiteClear, Unmet, HullsMeet, Missing, NameOf;
    LeftLines(boot, before, site, lost);
    if Movable(boot, wanted, site) {
      LeftExecutable(boot, before, site, lost);
    }
  }

  lemma {:induction false} LeftLines(s: Space, s': Space, at: int, lost: bool)
    requires Left(s, s', at, lost)
    ensures s'.lines == s.lines
  {
  }

  lemma {:induction false} StillRestorable(boot: Space, before: Space, regs: seq<U64>, wanted: seq<KernelMap>, vmas: seq<Vma>, lost: bool)
    requires |regs| == REGS_COUNT && Restorable(Boot(boot, regs), wanted, vmas) && Left(boot, before, regs[RIP], lost)
    ensures Restorable(Boot(before, regs), wanted, vmas)
  {
    hide Left, Executable, WantedOk, LinesOk, SiteClear, AreasOk, SiteTogether, AreasClear;
    LeftExecutable(boot, before, regs[RIP], lost);
  }

  lemma {:induction false} MapsFromBoot(boot: Space, before: Space, after: Space, wanted: seq<KernelMap>, vmas: seq<Vma>,
                                        regs: seq<U64>, lost: bool)
    requires |regs| == REGS_COUNT && Restorable(Boot(boot, regs), wanted, vmas) && Left(boot, before, regs[RIP], lost)
    requires MapsRestored(before, after, wanted)
    ensures MapsRestored(boot, after, wanted)
  {
    hide Left, Executable, WantedOk, LinesOk, SiteClear, AreasOk, SiteTogether, AreasClear, Brought;
    forall i | 0 <= i < |wanted| ensures Brought(boot, after, wanted[i]) {
      BroughtFromBoot(boot, before, after, wanted, i, regs[RIP], lost);
    }
  }

  lemma {:induction false} TableOrdered(table: seq<Fd>, pool: seq<Byte>)
    requires Reader.FdTableOk(table, pool)
    ensures forall i, j :: 0 <= i < j < |table| ==> table[i].fd < table[j].fd
    ensures forall i :: 0 <= i < |table| ==> table[i].fd > 2
  {
    Reader.Ordered(table, pool);
    forall i | 0 <= i < |table| ensures table[i].fd > 2 {
      assert Reader.EntryOk(table, pool, i);
    }
  }

  /**
   How a child was parted with: detached exactly if it was rebuilt, and otherwise
   killed, unless its end had been seen or it never ran. A kill goes astray
   exactly when the wait of an injected call has reported the end.
   */
  ghost predicate Parted(c: Tracee, ok: bool)
    reads c
  {
    && (ok <==> c.partings == [DetachTried(true)] || c.partings == [DetachTried(false)])
    && (c.phase == Released <==> c.partings == [DetachTried(true)])
    && (c.endSeen <==> c.partings == [StrayKill])
    && (!ok ==>
          || (c.partings == [] && c.phase in {Forked, Exited, Signaled})
          || (c.partings == [KillTried(true)] && c.phase == Killed)
          || (c.partings == [KillTried(false)] && c.phase in {Stopped, Running})
          || (c.partings == [StrayKill] && c.phase == Signaled))
    && (c.untraced ==> !ok && c.partings == [])
  }

  /** Lets a rebuilt child go, and kills any other one unless the first wait reported its end. */
  method PartWith(c: Tracee, stopped: bool, ok: bool)
    requires c.partings == [] && (ok ==> stopped && c.phase == Stopped && !c.endSeen)
    requires if stopped then c.phase == (if c.endSeen then Signaled else Stopped)
      else !c.endSeen && c.phase in {Exited, Signaled, Running}
    requires c.untraced ==> !stopped && c.phase in {Exited, Signaled}
    modifies c`phase, c`partings
    ensures Parted(c, ok) && c.phase != Forked
  {
    if ok {
      var released := c.Detach(); // its result is not looked at
      assert c.partings[0] == DetachTried(released);
    } else if stopped || (c.phase != Exited && c.phase != Signaled) {
      var killed := c.Kill(); // also when the rebuild failed because the child had ended
      assert c.partings[0] == if c.endSeen then StrayKill else KillTried(killed);
    }
  }

  /** The child is what the snapshot says, as far as the calls that were to make it so were made. */
  ghost predicate RestoredFrom(c: Tracee, file: seq<Byte>, s: Reader.Snapshot, boot: Boot)
    requires |boot.regs| == REGS_COUNT && Reader.FdTableOk(s.fds, s.pool)
    requires s.header.Shaped() && s.header.kernelMapCount <= MAX_KERNEL_MAPS
    reads c
  {
    && c.regs == s.header.regs && c.xstate == s.xstate
    && Scripted([], c.reported, boot.space.lines, file, s.fds, Wanted(s.header), s.vmas, boot.regs[RIP])
    && FdsRestored(c.fds, c.files, s.fds, s.pool, Made(boot.space, boot.regs[RIP], c.cut, SYS_FCNTL))
    && (AreasOk(s.vmas) ==> BytesRestored(c.space, file, s.vmas, boot.regs[RIP], c.lost))
    && (Restorable(boot, Wanted(s.header), s.vmas) ==>
          && (ProtsUncut(c.cut) ==> ProtsRestored(c.space, s.vmas))
          && (SYS_MREMAP !in c.cut ==> MapsRestored(boot.space, c.space, Wanted(s.header))))
  }

  /** From the fork on: the child is started, rebuilt, and let go of or killed. */
  method RunChild(c: Tracee, file: seq<Byte>, s: Reader.Snapshot, boot: Boot) returns (ok: bool)
    requires |boot.regs| == REGS_COUNT && Reader.FdTableOk(s.fds, s.pool)
    requires s.header.Shaped() && s.header.kernelMapCount <= MAX_KERNEL_MAPS
    requires !c.lost && c.reported == [] && c.partings == [] && SlotsOk(c.fds, |c.files|)
    requires !c.xstateSet && !c.endSeen && !c.untraced
    modifies c
    ensures c.disk == old(c.disk)
    ensures !ok ==> c.failed || MapsRefused(boot.space, c.space, Wanted(s.header), boot.regs[RIP]) || !Usable(file, s)
    ensures ok ==> c.failed == old(c.failed) && Usable(file, s) && RestoredFrom(c, file, s, boot)
    ensures (ok <==> c.xstateSet) && Parted(c, ok) && c.phase != Forked
  {
    hide Placed, BytesRestored, ProtsRestored, MapsRestored, FdsRestored, Flagged, Restorable, AreasOk, Survivors;
    hide Reader.FdTableOk, Executable, Scripted, MapsRefused, Unreadable, Unseekable, Wanted, BaseOk, Header.Shaped, SlotsOk;
    ghost var count := |c.files|;
    ghost var base, placed := SpawnTracedChild(c, s.fds, s.pool, boot);
    var stopped := c.phase == Stopped;
    ok := false;
    if stopped {
      ok := RebuildChild(c, file, s);
      if ok {
        DescriptorsBack(base, count, placed, c.fds, c.files, s.fds, s.pool, Made(boot.space, boot.regs[RIP], c.cut, SYS_FCNTL));
      }
    }
    PartWith(c, stopped, ok);
  }

  /** Every payload can be read, every offset is a file position. */
  predicate Usable(file: seq<Byte>, s: Reader.Snapshot) {
    && (forall i :: 0 <= i < |s.vmas| ==> !Unreadable(file, s.vmas[i]))
    && (forall i :: 0 <= i < |s.fds| ==> !Unseekable(s.fds[i]))
  }

  /** The fresh program has room for the kernel mappings, and the snapshot can be used. */
  ghost predicate NothingInTheWay(boot: Boot, file: seq<Byte>, s: Reader.Snapshot)
    requires |boot.regs| == REGS_COUNT && s.header.Shaped() && s.header.kernelMapCount <= MAX_KERNEL_MAPS
  {
    RoomFor(boot.space.lines, Wanted(s.header)) && Movable(boot.space, Wanted(s.header), boot.regs[RIP]) && Usable(file, s)
  }

  lemma {:induction false} NoReason(boot: Boot, after: Space, file: seq<Byte>, s: Reader.Snapshot)
    requires |boot.regs| == REGS_COUNT && s.header.Shaped() && s.header.kernelMapCount <= MAX_KERNEL_MAPS
    ensures NothingInTheWay(boot, file, s) ==> Usable(file, s) && !MapsRefused(boot.space, after, Wanted(s.header), boot.regs[RIP])
    ensures Usable(file, s) <==>
      && (!exists i :: 0 <= i < |s.vmas| && Unreadable(file, s.vmas[i]))
      && !exists i :: 0 <= i < |s.fds| && Unseekable(s.fds[i])
  {
    hide RoomFor, Movable, MapsRefused, Unreadable, Unseekable;
    RoomMeans(boot.space, after, Wanted(s.header), boot.regs[RIP]);
  }

  lemma {:induction false} SnapshotShape(file: seq<Byte>)
    requires Reader.Accepts(file)
    ensures var s := Reader.Contents(file);
      Reader.FdTableOk(s.fds, s.pool) && s.header.Shaped() && s.header.kernelMapCount <= MAX_KERNEL_MAPS
  {
  }

  /**
   A whole restore. The engine tries to release the child exactly when the
   result is OK, and that is exactly when the complete path ran; the child is
   released exactly when the kernel then let it go. In every other case a child
   that had stopped or still ran is sent the kill, and one whose end the first
   wait reported is not signalled. A child whose end the wait of an injected call
   reported is signalled although it is gone, and no other ended child is.

   A result of OK means that the descriptors are those of the snapshot and that
   every byte of every area is there. It means the flags, the protections and
   the kernel mappings as far as the calls that set them were made: the entry
   point has to be executable and the fresh program has to leave room, and no
   signal may have cut off a step of that kind of call.

   It refuses for a failed call, a file the reader refuses, kernel mappings that
   cannot be moved, a payload that cannot be read or an offset that is no file
   position, and for nothing else; and it is never OK when such a call failed.
   Whatever it comes to, no file is created or emptied to open the descriptors.
   */
  method Restore(c: Tracee, file: seq<Byte>, boot: Boot) returns (ok: bool)
    requires |file| < TWO_63 && |boot.regs| == REGS_COUNT
    requires c.phase == Forked && !c.lost && c.reported == [] && c.partings == [] && SlotsOk(c.fds, |c.files|)
    requires !c.xstateSet && !c.endSeen && !c.untraced && !c.failed
    modifies c
    ensures c.disk == old(c.disk)
    ensures !ok && Reader.Accepts(file) ==>
      var s := Reader.Contents(file);
      c.failed || MapsRefused(boot.space, c.space, Wanted(s.header), boot.regs[RIP]) || !Usable(file, s)
    ensures !c.failed && Reader.Accepts(file) && NothingInTheWay(boot, file, Reader.Contents(file)) ==> ok
    ensures (ok <==> c.xstateSet) && Parted(c, ok)
    ensures ok ==> !c.failed && Reader.Accepts(file) && Usable(file, Reader.Contents(file))
    ensures ok ==> RestoredFrom(c, file, Reader.Contents(file), boot)
  {
    hide Reader.Accepts, Reader.Contents, MapsRefused, Usable, NothingInTheWay, RestoredFrom, Wanted, Header.Shaped, SlotsOk, Reader.FdTableOk;
    ok := c.Try(); // the path of the snapshot
    if !ok {
      return;
    }
    var r := Reader.ReadSnapshotMetadata(file);
    if r.None? {
      return false;
    }
    ok := c.Try(); // the fork
    if !ok {
      return;
    }
    SnapshotShape(file);
    ok := RunChild(c, file, r.value, boot);
    NoReason(boot, c.space, file, r.value);
  }
}
