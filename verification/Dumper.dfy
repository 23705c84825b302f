/** Writing a snapshot, and the run of a whole dump under any schedule of failures. */
module Dumper {
  import opened Bytes
  import opened DumpFormat
  import opened PathPool
  import opened Maps
  import opened Fds
  import opened Target
  import opened Collector
  import opened Layout

  /** None of the sums that form the offsets wraps. */
  lemma {:induction false} NoSumWraps(p: Parts)
    requires p.Valid()
    ensures var fdTable := Add64(HEADER_SIZE, |p.vmas| * VMA_SIZE);
      var pool := Add64(fdTable, |p.fds| * FD_SIZE);
      var xstate := Add64(pool, |p.pool|);
      && fdTable == HeaderOf(p).fdTableOffset && pool == HeaderOf(p).pathPoolOffset
      && xstate == HeaderOf(p).xstateOffset && Add64(xstate, |p.xstate|) == HeaderOf(p).dataOffset
  {
    hide PaddedMaps, Zeros;
  }

  /** The header, with every offset formed in 64 bits. */
  method BuildHeader(p: Parts) returns (h: Header)
    requires p.Valid()
    ensures h == HeaderOf(p)
  {
    hide PaddedMaps, Zeros, Add64;
    NoSumWraps(p);
    var vmaTableOffset: U64 := HEADER_SIZE;
    var fdTableOffset := Add64(vmaTableOffset, |p.vmas| * VMA_SIZE);
    var pathPoolOffset := Add64(fdTableOffset, |p.fds| * FD_SIZE);
    var xstateOffset := Add64(pathPoolOffset, |p.pool|);
    var dataOffset := Add64(xstateOffset, |p.xstate|);
    h := Header(MAGIC, FORMAT_VERSION, |p.vmas|, vmaTableOffset, pathPoolOffset, |p.pool|, dataOffset,
                |p.exe|, p.exe + Zeros(PATH_MAX - |p.exe|), |p.kernelMaps|, PaddedMaps(p.kernelMaps),
                p.regs, xstateOffset, |p.xstate|, fdTableOffset, |p.fds|);
  }

  lemma {:induction false} LaidFrom(before: seq<Vma>, after: seq<Vma>, base: nat)
    requires |before| == |after| && forall k :: 0 <= k < |after| ==> after[k].size == before[k].size
    requires forall k :: 0 <= k < |after| ==> after[k].dataOffset == base + SizeSum(before[..k])
    ensures Laid(after, base)
  {
    forall i | 0 <= i < |after| ensures after[i].dataOffset == base + SizeSum(after[..i]) {
      SizeSumSame(after[..i], before[..i]);
    }
  }

  lemma {:induction false} SizeSumNone(vmas: seq<Vma>)
    requires vmas == []
    ensures SizeSum(vmas) == 0
  {
  }

  /** Assigns the payload offsets in table order. */
  method LayOut(vmas: array<Vma>, base: U64)
    requires base + SizeSum(vmas[..]) < TWO_64
    modifies vmas
    ensures Laid(vmas[..], base)
    ensures forall i :: 0 <= i < vmas.Length ==> vmas[i] == old(vmas[i]).(dataOffset := vmas[i].dataOffset)
  {
    hide SizeSum, Laid;
    var offset: U64 := base;
    ghost var before := vmas[..];
    SizeSumNone(before[..0]);
    for i := 0 to vmas.Length
      invariant offset == base + SizeSum(before[..i])
      invariant forall k :: i <= k < vmas.Length ==> vmas[k] == before[k]
      invariant forall k :: 0 <= k < i ==> vmas[k] == before[k].(dataOffset := vmas[k].dataOffset)
      invariant forall k :: 0 <= k < i ==> vmas[k].dataOffset == base + SizeSum(before[..k])
    {
      SizeSumPrefix(before, i);
      vmas[i] := vmas[i].(dataOffset := offset);
      offset := Add64(offset, vmas[i].size);
    }
    LaidFrom(before, vmas[..], base);
  }

  lemma {:induction false} NothingSent(mem: map<int, Byte>, start: int)
    ensures MemBytes(mem, start, 0) == [] && Mapped(mem, start, 0)
  {
  }

  lemma {:induction false} StillMapped(mem: map<int, Byte>, start: int, size: nat, sent: nat, wanted: nat)
    requires sent + wanted <= size
    ensures Mapped(mem, start, size) ==> Mapped(mem, start + sent, wanted)
  {
  }

  lemma {:induction false} MappedSplit(mem: map<int, Byte>, start: int, size: nat, more: nat)
    requires Mapped(mem, start, size) && Mapped(mem, start + size, more)
    ensures Mapped(mem, start, size + more)
  {
  }

  /**
   Copies one area out of the target, whatever sizes the reads come in and
   however often they are interrupted.
   */
  method WriteVmaPayload(host: Host, vma: Vma) returns (ok: bool)
    modifies host`stream, host`interruptions, host`denied
    ensures old(host.denied) ==> host.denied
    ensures !ok ==> host.denied || !Mapped(host.image.mem, vma.start, vma.size)
    ensures ok ==> host.denied == old(host.denied)
    ensures ok ==> host.stream == old(host.stream) + MemBytes(host.image.mem, vma.start, vma.size)
    ensures ok ==> Mapped(host.image.mem, vma.start, vma.size)
  {
    hide MemBytes, Mapped;
    var sent := 0;
    NothingSent(host.image.mem, vma.start);
    while sent < vma.size
      invariant sent <= vma.size && host.denied == old(host.denied)
      invariant host.stream == old(host.stream) + MemBytes(host.image.mem, vma.start, sent)
      invariant Mapped(host.image.mem, vma.start, sent)
      decreases vma.size - sent, host.interruptions
    {
      var wanted := vma.size - sent;
      if wanted > PAGE_SIZE {
        wanted := PAGE_SIZE;
      }
      var n, interrupted, bytes := host.ReadMemory(vma.start + sent, wanted);
      if n < 0 {
        if interrupted {
          continue;
        }
        StillMapped(host.image.mem, vma.start, vma.size, sent, wanted);
        return false;
      }
      if n == 0 {
        StillMapped(host.image.mem, vma.start, vma.size, sent, wanted);
        return false;
      }
      var written := host.Write(bytes);
      if !written {
        return false;
      }
      MemBytesSplit(host.image.mem, vma.start, sent, n);
      MappedSplit(host.image.mem, vma.start, sent, n);
      sent := sent + n;
    }
    ok := true;
  }

  method WritePayloads(host: Host, vmas: array<Vma>) returns (ok: bool)
    modifies host`stream, host`interruptions, host`denied
    ensures old(host.denied) ==> host.denied
    ensures !ok ==> host.denied || !AllMapped(vmas[..], host.image.mem)
    ensures ok ==> host.stream == old(host.stream) + Payload(vmas[..], host.image.mem)
    ensures ok ==> AllMapped(vmas[..], host.image.mem) && host.denied == old(host.denied)
  {
    for i := 0 to vmas.Length
      invariant host.stream == old(host.stream) + Payload(vmas[..i], host.image.mem)
      invariant AllMapped(vmas[..i], host.image.mem) && host.denied == old(host.denied)
    {
      ok := WriteVmaPayload(host, vmas[i]);
      if !ok {
        assert vmas[..][i] == vmas[i];
        return false;
      }
      assert vmas[..i + 1][..i] == vmas[..i];
    }
    assert vmas[..vmas.Length] == vmas[..];
    ok := true;
  }

  method WriteTables(host: Host, p: Parts, h: Header) returns (ok: bool)
    requires p.Valid() && h == HeaderOf(p) && host.stream == []
    modifies host`stream, host`denied
    ensures ok ==> host.stream == TablesOf(p)
    ensures if ok then host.denied == old(host.denied) else host.denied
  {
    ok := host.Write(HeaderBytes(h));
    if !ok {
      return false;
    }
    assert host.stream == HeaderBytes(h);
    ok := host.Write(VmaTable(p.vmas));
    if !ok {
      return false;
    }
    ghost var written := host.stream;
    if |p.fds| > 0 {
      ok := host.Write(FdTable(p.fds));
      if !ok {
        return false;
      }
    }
    assert host.stream == written + FdTable(p.fds) by { FdTableSize(p.fds); }
    written := host.stream;
    if |p.pool| > 0 {
      ok := host.Write(p.pool);
      if !ok {
        return false;
      }
    }
    assert host.stream == written + p.pool;
    ok := host.Write(p.xstate);
  }

  /**
   The body of the write. The layout check cannot fire: once every table is
   written, a position that can be read at all is the promised one.
   */
  method WriteBody(host: Host, p: Parts, h: Header, vmas: array<Vma>) returns (ok: bool, tables: bool, position: int)
    requires p.Valid() && h == HeaderOf(p) && p.vmas == vmas[..] && host.stream == []
    modifies host`stream, host`interruptions, host`denied
    ensures old(host.denied) ==> host.denied
    ensures !ok ==> host.denied || !AllMapped(p.vmas, host.image.mem)
    ensures ok ==> host.denied == old(host.denied)
    ensures ok ==> host.stream == FileOf(p, Payload(p.vmas, host.image.mem)) && AllMapped(p.vmas, host.image.mem)
    ensures tables ==> position == -1 || position == h.dataOffset
  {
    position := -1;
    tables := WriteTables(host, p, h);
    if !tables {
      return false, tables, position;
    }
    TablesLength(p);
    position := host.Tell();
    if position < 0 || position != h.dataOffset {
      return false, tables, position;
    }
    ok := WritePayloads(host, vmas);
  }

  /** The header does not depend on where the payloads are laid out. */
  lemma {:induction false} HeaderIgnoresLayout(p: Parts, vmas: seq<Vma>)
    requires p.Valid() && |vmas| == |p.vmas|
    ensures p.(vmas := vmas).Valid() && HeaderOf(p.(vmas := vmas)) == HeaderOf(p) && HeaderOf(p).dataOffset == p.DataOffset()
  {
  }

  // ----- the run of events -----

  /** How far the write of the snapshot got. */
  datatype Writing =
    | NotOpened
    | BodyFailed(closed: bool)
    | FlushFailed(closed: bool)
    | SyncFailed(closed: bool)
    | CloseFailed
    | Complete

  function WritingEvents(w: Writing): seq<Event> {
    match w
    case NotOpened => []
    case BodyFailed(c) => [Closed(c)]
    case FlushFailed(c) => [Flushed(false), Closed(c)]
    case SyncFailed(c) => [Flushed(true), Synced(false), Closed(c)]
    case CloseFailed => [Flushed(true), Synced(true), Closed(false)]
    case Complete => [Flushed(true), Synced(true), Closed(true)]
  }

  /** How far a run got that holds the target. */
  datatype Attached = NotInterrupted | NotStopped | Stopped(writing: Writing)

  function AttachedEvents(a: Attached): seq<Event> {
    match a
    case NotInterrupted => [Interrupted(false)]
    case NotStopped => [Interrupted(true), StopSeen(false)]
    case Stopped(w) => [Interrupted(true), StopSeen(true)] + WritingEvents(w)
  }

  /** How a run lets the target go. */
  datatype Ending = Killed | KillFailed(detached: bool) | Detached(ok: bool)

  function EndingEvents(e: Ending): seq<Event> {
    match e
    case Killed => [KillTried(true)]
    case KillFailed(d) => [KillTried(false), DetachTried(d)]
    case Detached(d) => [DetachTried(d)]
  }

  datatype Run = NotStarted | NotSeized | Ran(attached: Attached, ending: Ending)
  {
    predicate Complete() {
      Ran? && attached == Stopped(Writing.Complete)
    }
  }

  function RunEvents(r: Run): seq<Event> {
    match r
    case NotStarted => []
    case NotSeized => [Seized(false)]
    case Ran(a, e) => [Seized(true)] + (AttachedEvents(a) + EndingEvents(e))
  }

  /** A kill is only ever tried right after a complete write. */
  predicate EndingAllowed(e: Ending, kill: bool, complete: bool) {
    if kill && complete then e.Killed? || e.KillFailed? else e.Detached?
  }

  /** The result of a run that ended this way. */
  predicate EndedOk(e: Ending, complete: bool) {
    complete && (e == Killed || e == Detached(true))
  }

  /** A snapshot is done only once it is on the disk and the stream is closed. */
  method FinishStream(host: Host, written: bool) returns (w: Writing)
    modifies host`cache, host`disk, host`events, host`denied
    ensures (old(host.denied) ==> host.denied) && (w != Complete ==> host.denied || !written)
    ensures w == Complete ==> host.denied == old(host.denied)
    ensures host.events == old(host.events) + WritingEvents(w) && w != NotOpened
    ensures w == Complete ==> written && host.disk == host.stream
  {
    var ok := written;
    var flushed, synced := false, false;
    if ok {
      flushed := host.Flush();
      ok := flushed;
      if ok {
        synced := host.Sync();
        ok := synced;
      }
    }
    var closed := host.CloseStream();
    w := if !written then BodyFailed(closed)
         else if !flushed then FlushFailed(closed)
         else if !synced then SyncFailed(closed)
         else if !closed then CloseFailed
         else Complete;
  }

  method WriteSnapshot(host: Host, p: Parts, vmas: array<Vma>) returns (w: Writing)
    requires p.Valid() && p.vmas == vmas[..]
    requires p.DataOffset() + SizeSum(p.vmas) < TWO_63
    modifies vmas, host`stream, host`cache, host`disk, host`events, host`interruptions, host`denied
    ensures forall i :: 0 <= i < vmas.Length ==> vmas[i] == old(vmas[i]).(dataOffset := vmas[i].dataOffset)
    ensures host.events == old(host.events) + WritingEvents(w)
    ensures (old(host.denied) ==> host.denied) && (w != Complete ==> host.denied || !AllMapped(p.vmas, host.image.mem))
    ensures w == Complete ==> host.denied == old(host.denied) && AllMapped(p.vmas, host.image.mem)
    ensures w == Complete ==> Laid(vmas[..], p.DataOffset()) && AllMapped(vmas[..], host.image.mem)
    ensures w == Complete ==> host.disk == FileOf(p.(vmas := vmas[..]), Payload(vmas[..], host.image.mem))
  {
    var memOpened := host.Try();
    if !memOpened {
      return NotOpened;
    }
    var streamOpened := host.OpenStream();
    if !streamOpened {
      return NotOpened;
    }
    var h := BuildHeader(p);
    HeaderIgnoresLayout(p, vmas[..]);
    LayOut(vmas, h.dataOffset);
    HeaderIgnoresLayout(p, vmas[..]);
    var written, tables, position := WriteBody(host, p.(vmas := vmas[..]), h, vmas);
    w := FinishStream(host, written);
    SamePlaces(p.vmas, vmas[..], host.image.mem);
  }

  lemma {:induction false} SamePlaces(before: seq<Vma>, after: seq<Vma>, mem: map<int, Byte>)
    requires |before| == |after|
    requires forall i :: 0 <= i < |after| ==> after[i] == before[i].(dataOffset := after[i].dataOffset)
    ensures AllMapped(before, mem) <==> AllMapped(after, mem)
  {
    hide Mapped;
    forall i | 0 <= i < |after| ensures Mapped(mem, after[i].start, after[i].size) <==> Mapped(mem, before[i].start, before[i].size) {
      assert after[i].start == before[i].start && after[i].size == before[i].size;
    }
  }

  // ----- the whole dump -----

  /** A process a snapshot can hold: a dump of it in which no call fails is complete. */
  predicate Dumpable(image: Image) {
    && 576 <= |image.xstate| <= 65535 && image.exe != []
    && Collectable(image.lines, 0)
    && Carryable(image, PathBytes(OfClass(image.lines, VmaDump)))
    && MemoryThere(image)
  }

  /** What the listing says is mapped can be read. */
  predicate MemoryThere(image: Image) {
    forall i :: 0 <= i < |OfClass(image.lines, VmaDump)| ==>
      var l := OfClass(image.lines, VmaDump)[i]; Mapped(image.mem, l.start, l.Size())
  }

  lemma {:induction false} RecordsIgnoreLayout(before: seq<Vma>, after: seq<Vma>, lines: seq<ParsedLine>, pool: seq<Byte>)
    requires RecordsAll(before, lines, pool)
    requires |after| == |before|
    requires forall i :: 0 <= i < |before| ==> after[i] == before[i].(dataOffset := after[i].dataOffset)
    ensures RecordsAll(after, lines, pool)
  {
    forall i | 0 <= i < |after| ensures Records(after[i], lines[i], pool) {
      assert Records(before[i], lines[i], pool);
    }
  }

  /** The size of every snapshot of a process fits a signed 64-bit file position. */
  lemma {:induction false} SnapshotFits(image: Image, p: Parts)
    requires ImageOk(image) && p.Valid() && RecordsAll(p.vmas, OfClass(image.lines, VmaDump), p.pool)
    ensures p.DataOffset() + SizeSum(p.vmas) < TWO_63
  {
    DumpedBelow(image.lines, ADDRESS_LIMIT);
    SizesAgree(p.vmas, OfClass(image.lines, VmaDump), p.pool);
  }

  /** Reads the extended state; a size at either bound could mean it was cut short. */
  method ReadXstate(host: Host) returns (ok: bool, xstate: seq<Byte>)
    modifies host`denied
    ensures old(host.denied) ==> host.denied
    ensures ok ==> host.denied == old(host.denied)
    ensures ok ==> xstate == host.image.xstate && XSTATE_MIN_SIZE <= |xstate| < XSTATE_MAX_SIZE
    ensures !ok ==> host.denied || !(576 <= |host.image.xstate| <= 65535)
  {
    ok, xstate := host.ReadXstate();
    if ok && (|xstate| < XSTATE_MIN_SIZE || |xstate| >= XSTATE_MAX_SIZE) {
      ok := false;
    }
  }

  method ReadExePath(host: Host) returns (ok: bool, exe: seq<Byte>)
    modifies host`denied
    ensures old(host.denied) ==> host.denied
    ensures ok ==> exe == host.image.exe && |exe| > 0 && host.denied == old(host.denied)
    ensures !ok ==> host.denied || host.image.exe == []
  {
    ok, exe := host.ReadLink();
    if ok && |exe| == 0 {
      ok := false;
    }
  }

  /** The two tables and the path pool they share. */
  method CollectTables(host: Host)
    returns (ok: bool, kernelMaps: seq<KernelMap>, vmas: seq<Vma>, fds: seq<Fd>, paths: seq<Byte>, ghost done: nat)
    requires ImageOk(host.image)
    modifies host`kcmpBroken, host`denied, host`seen, host`answers, host`brokeOff, host`answerLost
    ensures old(host.denied) ==> host.denied
    ensures !ok ==> host.denied || host.answerLost || !Collectable(host.image.lines, 0)
                    || !Carryable(host.image, PathBytes(OfClass(host.image.lines, VmaDump)))
    ensures ok ==> host.denied == old(host.denied)
    ensures ok ==> host.WalkOk() && host.WalkDone() && 0 < |vmas| && |paths| < TWO_32
    ensures ok ==> KernelMapsOf(kernelMaps, OfClass(host.image.lines, VmaKernel))
    ensures ok ==> RecordsAll(vmas, OfClass(host.image.lines, VmaDump), paths)
    ensures ok ==> FdsCollected(host.Seen(), fds, paths) && FdsLinked(host.Seen(), fds, done)
    ensures ok && !host.kcmpBroken ==> done == |fds|
    ensures ok ==> |FdsOfClass(host.seen, FdUnreadable)| == 0
    ensures ok ==> Collectable(host.image.lines, 0) && Carryable(host.Seen(), PathBytes(OfClass(host.image.lines, VmaDump)))
  {
    hide Carryable, Collectable, RecordsAll, KernelMapsOf, OfClass, FdsOfClass, FdsCollected, FdsLinked, LinesOrdered, FdsConsistent;
    hide PathBytes, TrueCause;
    ok, kernelMaps, vmas, fds, paths, done := false, [], [], [], [], 0;
    host.answerLost := false;
    var pool := new Pool();
    var maps := CollectVmas(host, host.image.lines, pool);
    host.denied := host.denied || pool.short;
    if maps.Refused? {
      return;
    }
    ghost var before := pool.Contents();
    var table;
    ok, table, done := CollectFds(host, pool);
    host.denied := host.denied || pool.short;
    if !ok {
      return;
    }
    kernelMaps, vmas, fds, paths := maps.kernelMaps, maps.vmas, table[..], pool.data[..pool.size];
    RecordsAllKept(maps.vmas, OfClass(host.image.lines, VmaDump), before, paths);
  }

  /** Collects everything a snapshot needs except the memory itself. */
  method CollectParts(host: Host) returns (ok: bool, p: Parts, vmas: array<Vma>, ghost done: nat)
    requires ImageOk(host.image)
    modifies host`kcmpBroken, host`denied, host`seen, host`answers, host`brokeOff, host`answerLost
    ensures fresh(vmas) && (ok ==> Skimmed(host.image.fds, host.seen) && ImageOk(host.Seen()))
    ensures ok && host.SawAll() ==> host.seen == host.image.fds
    ensures if ok then host.denied == old(host.denied) else old(host.denied) ==> host.denied
    ensures !ok ==> host.denied || host.answerLost || !Dumpable(host.image)
    ensures ok && MemoryThere(host.image) ==> Dumpable(host.Seen())
    ensures ok ==> p.vmas == vmas[..] && Gathered(p, host.Seen(), done)
    ensures ok && !host.kcmpBroken ==> done == |p.fds|
    ensures ok ==> |FdsOfClass(host.seen, FdUnreadable)| == 0
  {
    hide Carryable, Collectable, MemoryThere, RecordsAll, KernelMapsOf, FdsOfClass, FdsCollected, FdsLinked, ImageOk, Gathered;
    p, vmas, done := Parts([], [], [], [], [], [], [], 0), new Vma[0], 0;
    var regs;
    ok, regs := host.ReadRegs();
    if !ok {
      return;
    }
    var xstate, exe;
    ok, xstate := ReadXstate(host);
    if !ok {
      return;
    }
    ok, exe := ReadExePath(host);
    if !ok {
      return;
    }
    var kernelMaps, records, fds, paths;
    ok, kernelMaps, records, fds, paths, done := CollectTables(host);
    if !ok {
      return;
    }
    SeenOk(host.image, host.seen);
    vmas := new Vma[|records|](i requires 0 <= i < |records| => records[i]);
    assert vmas[..] == records;
    p := Parts(regs, exe, kernelMaps, records, fds, paths, xstate, 0);
    NowGathered(p, host.Seen(), done);
    SameThere(host.image, host.seen);
  }

  lemma {:induction false} SameThere(image: Image, seen: seq<FdView>)
    ensures MemoryThere(image.(fds := seen)) <==> MemoryThere(image)
  {
  }

  lemma {:induction false} SeenOk(image: Image, seen: seq<FdView>)
    requires ImageOk(image) && Skimmed(image.fds, seen)
    ensures ImageOk(image.(fds := seen))
  {
    hide LinesOrdered, FdsConsistent;
    SkimmedConsistent(image, seen);
  }

  lemma {:induction false} NowGathered(p: Parts, image: Image, done: nat)
    requires ImageOk(image)
    requires p.regs == image.regs && p.exe == image.exe && p.xstate == image.xstate
    requires 0 < |p.exe| && XSTATE_MIN_SIZE <= |p.xstate| < XSTATE_MAX_SIZE && 0 < |p.vmas| && |p.pool| < TWO_32
    requires KernelMapsOf(p.kernelMaps, OfClass(image.lines, VmaKernel))
    requires RecordsAll(p.vmas, OfClass(image.lines, VmaDump), p.pool)
    requires FdsCollected(image, p.fds, p.pool) && FdsLinked(image, p.fds, done)
    ensures Gathered(p, image, done)
  {
    OfClassShort(image.lines, VmaDump);
    FdsOfClassShort(image.fds, FdDump);
  }

  lemma {:induction false} SameFile(p: Parts, q: Parts, payload: seq<Byte>)
    requires p.Valid() && q == p.(done := q.done)
    ensures FileOf(p, payload) == FileOf(q, payload)
  {
    assert HeaderOf(p) == HeaderOf(q);
  }

  /** The parts hold everything of the process except its memory. */
  ghost predicate Gathered(parts: Parts, image: Image, done: nat) {
    && parts.Valid()
    && parts.regs == image.regs && parts.exe == image.exe && parts.xstate == image.xstate
    && KernelMapsOf(parts.kernelMaps, OfClass(image.lines, VmaKernel))
    && RecordsAll(parts.vmas, OfClass(image.lines, VmaDump), parts.pool)
    && FdsCollected(image, parts.fds, parts.pool)
    && FdsLinked(image, parts.fds, done)
  }

  /** Laying the payloads out turns collected parts into the parts of a snapshot. */
  lemma {:induction false} Assembled(image: Image, parts: Parts, p: Parts)
    requires p == parts.(vmas := p.vmas, done := p.done)
    requires |p.vmas| == |parts.vmas|
    requires forall i :: 0 <= i < |p.vmas| ==> p.vmas[i] == parts.vmas[i].(dataOffset := p.vmas[i].dataOffset)
    requires Gathered(parts, image, p.done)
    requires Laid(p.vmas, parts.DataOffset()) && AllMapped(p.vmas, image.mem)
    ensures Describes(p, image)
  {
    RecordsIgnoreLayout(parts.vmas, p.vmas, OfClass(image.lines, VmaDump), parts.pool);
  }

  method WriteParts(host: Host, parts: Parts, vmas: array<Vma>, ghost done: nat) returns (w: Writing)
    requires ImageOk(host.Seen()) && Gathered(parts, host.Seen(), done) && parts.vmas == vmas[..]
    modifies vmas, host`stream, host`cache, host`disk, host`events, host`interruptions, host`denied
    ensures host.events == old(host.events) + WritingEvents(w)
    ensures (old(host.denied) ==> host.denied) && (w != Complete ==> host.denied || !MemoryThere(host.image))
    ensures w == Complete ==> host.denied == old(host.denied) && MemoryThere(host.image)
    ensures w == Complete ==> SnapshotOf(host.disk, host.Seen(), done == |parts.fds|)
  {
    hide FileOf, Payload, RecordsAll, FdsCollected, FdsLinked, KernelMapsOf, Laid, AllMapped, LinesOrdered, FdsConsistent;
    SnapshotFits(host.Seen(), parts);
    w := WriteSnapshot(host, parts, vmas);
    RecordedThere(host.image, parts.vmas, parts.pool);
    if w == Complete {
      ghost var p := parts.(vmas := vmas[..], done := done);
      Assembled(host.Seen(), parts, p);
      SameFile(parts.(vmas := vmas[..]), p, Payload(vmas[..], host.image.mem));
    }
  }

  lemma {:induction false} RecordedThere(image: Image, vmas: seq<Vma>, pool: seq<Byte>)
    requires RecordsAll(vmas, OfClass(image.lines, VmaDump), pool)
    ensures AllMapped(vmas, image.mem) <==> MemoryThere(image)
  {
    hide Mapped, StringAt, PermsToProt, PermsToMapFlags;
    var lines := OfClass(image.lines, VmaDump);
    forall i | 0 <= i < |vmas|
      ensures Mapped(image.mem, vmas[i].start, vmas[i].size) <==> Mapped(image.mem, lines[i].start, lines[i].Size())
    {
      assert Records(vmas[i], lines[i], pool);
    }
  }

  lemma {:induction false} Weaker(file: seq<Byte>, image: Image, strong: bool, weak: bool)
    requires SnapshotOf(file, image, strong) && (weak ==> strong)
    ensures SnapshotOf(file, image, weak)
  {
  }

  /** The work on the stopped target. */
  method DumpStopped(host: Host) returns (w: Writing)
    requires ImageOk(host.image) && !host.kcmpBroken
    modifies host
    ensures host.events == old(host.events) + WritingEvents(w)
    ensures w == Complete ==> SnapshotOf(host.disk, host.Seen(), !host.kcmpBroken) && Skimmed(host.image.fds, host.seen)
    ensures w == Complete ==> |FdsOfClass(host.seen, FdUnreadable)| == 0
    ensures w == Complete && host.SawAll() ==> host.seen == host.image.fds
    ensures w == Complete ==> Dumpable(host.Seen())
    ensures w != Complete ==> host.denied || host.answerLost || !Dumpable(host.image)
    ensures if w == Complete then host.denied == old(host.denied) else old(host.denied) ==> host.denied
  {
    hide SnapshotOf, ImageOk, Skimmed, FdsOfClass, Gathered, Parts.Valid, Carryable, Collectable, MemoryThere;
    var ok, parts, vmas;
    ghost var done;
    ok, parts, vmas, done := CollectParts(host);
    if !ok {
      return NotOpened;
    }
    w := WriteParts(host, parts, vmas, done);
    if w == Complete {
      Weaker(host.disk, host.Seen(), done == |parts.fds|, !host.kcmpBroken);
    }
  }

  /** Between the seize and the point every exit passes. */
  method DumpAttached(host: Host) returns (a: Attached)
    requires ImageOk(host.image) && !host.kcmpBroken
    modifies host
    ensures host.events == old(host.events) + AttachedEvents(a)
    ensures a == Stopped(Complete) ==> SnapshotOf(host.disk, host.Seen(), !host.kcmpBroken) && Skimmed(host.image.fds, host.seen)
    ensures a == Stopped(Complete) ==> |FdsOfClass(host.seen, FdUnreadable)| == 0
    ensures a == Stopped(Complete) && host.SawAll() ==> host.seen == host.image.fds
    ensures a == Stopped(Complete) ==> Dumpable(host.Seen())
    ensures a != Stopped(Complete) ==> host.denied || host.answerLost || !Dumpable(host.image)
    ensures if a == Stopped(Complete) then host.denied == old(host.denied) else old(host.denied) ==> host.denied
  {
    hide SnapshotOf, ImageOk, FdsOfClass, Skimmed, Dumpable;
    var interrupted := host.Interrupt();
    if !interrupted {
      return NotInterrupted;
    }
    var stopped := host.WaitForStop();
    if !stopped {
      return NotStopped;
    }
    var w := DumpStopped(host);
    a := Stopped(w);
  }

  /** The point every exit passes: the target is killed or released. */
  method LetGo(host: Host, kill: bool, complete: bool) returns (ok: bool, e: Ending)
    modifies host`events, host`denied
    ensures (old(host.denied) ==> host.denied) && (if ok then host.denied == old(host.denied) else host.denied || !complete)
    ensures host.events == old(host.events) + EndingEvents(e)
    ensures EndingAllowed(e, kill, complete)
    ensures ok <==> EndedOk(e, complete)
  {
    ok := complete;
    if ok && kill {
      var killed := host.Kill();
      if killed {
        return true, Killed;
      }
      ok := false;
    }
    var detached := host.Detach();
    if !detached {
      ok := false;
    }
    e := if complete && kill then KillFailed(detached) else Detached(detached);
  }

  /**
   A whole dump. Its events are those of `run`; a run that seized the target
   ends by killing or detaching it, and kills only with `kill` and a complete
   snapshot; the result is OK exactly when the snapshot is complete and the
   requested ending worked; and a complete snapshot is on the disk. Its
   descriptors are those the walk got to see, which is all of them unless reading
   the directory broke off or the look at the path of a link failed. It is OK
   only if no call failed; and where none fails and nothing is missed, a snapshot
   is complete exactly if a snapshot can hold the process.
   */
  method Dump(host: Host, kill: bool) returns (ok: bool, run: Run)
    requires ImageOk(host.image) && !host.kcmpBroken && host.events == []
    modifies host
    ensures host.events == RunEvents(run)
    ensures run.Ran? ==> EndingAllowed(run.ending, kill, run.Complete())
    ensures ok <==> run.Ran? && EndedOk(run.ending, run.Complete())
    ensures run.Complete() ==> SnapshotOf(host.disk, host.Seen(), !host.kcmpBroken) && Skimmed(host.image.fds, host.seen)
    ensures run.Complete() ==> |FdsOfClass(host.seen, FdUnreadable)| == 0
    ensures run.Complete() && host.SawAll() ==> host.seen == host.image.fds
    ensures run.Complete() ==> Dumpable(host.Seen())
    ensures !run.Complete() ==> host.denied || host.answerLost || !Dumpable(host.image)
    ensures !ok && run.Complete() ==> host.denied
    ensures ok ==> host.denied == old(host.denied)
  {
    hide SnapshotOf, ImageOk, FdsOfClass, Skimmed, Dumpable, AttachedEvents, EndingEvents;
    var pathFits := host.Try();
    if !pathFits {
      return false, NotStarted;
    }
    var seized := host.Seize();
    if !seized {
      return false, NotSeized;
    }
    var a := DumpAttached(host);
    var e;
    ok, e := LetGo(host, kill, a == Stopped(Complete));
    run := Ran(a, e);
    Associative([Seized(true)], AttachedEvents(a), EndingEvents(e));
  }

  lemma {:induction false} Associative(a: seq<Event>, b: seq<Event>, c: seq<Event>)
    ensures (a + b) + c == a + (b + c)
  {
  }

  predicate Durable(events: seq<Event>) {
    |events| >= 3 && events[|events| - 3..] == [Flushed(true), Synced(true), Closed(true)]
  }

  lemma {:induction false} NoEndingYet(a: Attached)
    ensures forall e :: e in AttachedEvents(a) ==> !e.KillTried? && !e.DetachTried?
    ensures a == Stopped(Complete) ==> Durable([Seized(true)] + AttachedEvents(a))
  {
  }

  /**
   Safety of every run, read off its events: a kill is tried only after the
   flush, the sync and the close all succeeded, at most once, and a run that
   seized the target ends in a successful kill or an attempt to detach.
   */
  lemma {:induction false} RunSafety(run: Run, kill: bool, k: nat)
    requires run.Ran? ==> EndingAllowed(run.ending, kill, run.Complete())
    requires k < |RunEvents(run)|
    ensures RunEvents(run)[k].KillTried? ==> kill && Durable(RunEvents(run)[..k])
    ensures RunEvents(run)[k].DetachTried? ==> k == |RunEvents(run)| - 1
    ensures run.Ran? ==>
      var last := RunEvents(run)[|RunEvents(run)| - 1]; last == KillTried(true) || last.DetachTried?
  {
    if run.Ran? {
      var before := [Seized(true)] + AttachedEvents(run.attached);
      Associative([Seized(true)], AttachedEvents(run.attached), EndingEvents(run.ending));
      assert RunEvents(run) == before + EndingEvents(run.ending);
      NoEndingYet(run.attached);
      if RunEvents(run)[k].KillTried? {
        assert RunEvents(run)[..k] == before;
      }
    }
  }
}
