/** Rebuilding the memory areas of a snapshot inside the child, then their protections. */
module Areas {
  import opened Bytes
  import opened DumpFormat
  import opened AddressSpace
  import opened Child
  import opened Injection

  /** Non-empty page-aligned areas, no two of which share an address. */
  predicate AreasOk(vmas: seq<Vma>) {
    && (forall i :: 0 <= i < |vmas| ==> PageAligned(vmas[i]))
    && (forall i, j :: 0 <= i < j < |vmas| ==> Apart(vmas[i].start, vmas[i].size, vmas[j].start, vmas[j].size))
  }

  predicate PageAligned(v: Vma) {
    v.start % PAGE == 0 && v.size % PAGE == 0 && v.size > 0 && v.start + v.size < TWO_64
  }

  predicate InArea(a: int, v: Vma) {
    In(a, v.start, v.size)
  }

  /** The injected instruction does not straddle the border of an area. */
  predicate SiteTogether(vmas: seq<Vma>, site: int) {
    forall i :: 0 <= i < |vmas| ==> (InArea(site, vmas[i]) <==> InArea(site + 1, vmas[i]))
  }

  /** The first `n` bytes of the area are those of its payload, but for an instruction that could not be put back. */
  ghost predicate Filled(s: Space, file: seq<Byte>, v: Vma, n: nat, at: int, lost: bool) {
    && v.dataOffset + n <= |file|
    && forall a :: v.start <= a < v.start + n ==>
         a in s.cells && ByteKept(file[v.dataOffset + (a - v.start)], s.cells[a].value, a, at, lost)
  }

  predicate HasProt(s: Space, v: Vma, prot: nat) {
    forall a :: v.start <= a < v.start + v.size ==> a in s.cells && s.cells[a].prot == prot
  }

  lemma {:induction false} RemappedExecutable(s: Space, s': Space, start: nat, size: nat, at: int, lost: bool)
    requires Remapped(s, s', start, size, at, lost) && Executable(s, at)
    ensures Executable(s', at)
  {
    assert HasBit(PROT_RWX, PROT_EXEC);
  }

  /** Only bytes inside the range have changed. */
  ghost predicate Overwritten(s: Space, s': Space, start: int, size: nat) {
    && s'.lines == s.lines && s'.cells.Keys == s.cells.Keys
    && forall a :: a in s.cells ==>
         s'.cells[a].prot == s.cells[a].prot && (!In(a, start, size) ==> s'.cells[a].value == s.cells[a].value)
  }

  /** A write inside the area adds the bytes written. */
  lemma {:induction false} WriteFills(before: Space, s: Space, s': Space, file: seq<Byte>, v: Vma, n: nat, bytes: seq<Byte>, at: int)
    requires Overwritten(before, s, v.start, v.size)
    requires n > 0 ==> Filled(s, file, v, n, at, false)
    requires n + |bytes| <= v.size && Holds(file, v.dataOffset + n, bytes) && AllIn(s, v.start + n, |bytes|)
    requires s' == Overlay(s, v.start + n, bytes)
    ensures Overwritten(before, s', v.start, v.size) && Filled(s', file, v, n + |bytes|, at, false)
  {
    forall a | v.start <= a < v.start + n + |bytes|
      ensures a in s'.cells && ByteKept(file[v.dataOffset + (a - v.start)], s'.cells[a].value, a, at, false)
    {
      var k := a - v.start;
      if k >= n {
        assert In(a, v.start + n, |bytes|);
        assert bytes[k - n] == file[v.dataOffset + n..v.dataOffset + n + |bytes|][k - n];
      }
    }
  }

  /**
   What restoring one area does to the child. If the mapping call was made, the
   area is mapped afresh with every right. If a signal or the site kept it from
   being made, the payload has been written over whatever was there.
   */
  ghost predicate AreaRestored(before: Space, after: Space, file: seq<Byte>, v: Vma, at: int, lost: bool, mapped: bool) {
    && (if mapped then
          Remapped(before, after, v.start, RoundUp(v.size), at, lost)
          && after.lines == Punched(before.lines, v.start, RoundUp(v.size))
        else exists mid :: Left(before, mid, at, lost) && Overwritten(mid, after, v.start, v.size))
    && (v.size > 0 ==> Filled(after, file, v, v.size, at, lost))
  }

  lemma {:induction false} RemappedWritten(before: Space, mid: Space, after: Space, v: Vma, at: int, lost: bool)
    requires Remapped(before, mid, v.start, RoundUp(v.size), at, lost) && Overwritten(mid, after, v.start, v.size)
    ensures Remapped(before, after, v.start, RoundUp(v.size), at, lost)
  {
    assert v.size <= RoundUp(v.size);
    hide RoundUp;
  }

  lemma {:induction false} FilledLost(s: Space, file: seq<Byte>, v: Vma, n: nat, at: int, lost: bool)
    requires Filled(s, file, v, n, at, false)
    ensures Filled(s, file, v, n, at, lost)
  {
  }

  /** The payload lies inside the file. */
  predicate PayloadInside(file: seq<Byte>, v: Vma) {
    v.size > 0 ==> v.dataOffset + v.size <= |file|
  }

  /** The payload cannot be read: its offset is no file position, or it passes the end of the file. */
  predicate Unreadable(file: seq<Byte>, v: Vma) {
    v.dataOffset >= TWO_63 || !PayloadInside(file, v)
  }

  /** The writes that copy the first `n` bytes of a payload, 4096 bytes at a time. */
  function CopySteps(file: seq<Byte>, v: Vma, n: nat): seq<Report>
    requires n > 0 ==> v.dataOffset + n <= |file|
  {
    if n == 0 then []
    else
      var last := (n - 1) / 4096 * 4096;
      CopySteps(file, v, last) + [Wrote(v.start + last, file[v.dataOffset + last..v.dataOffset + n])]
  }

  lemma {:induction false} OneMoreCopy(file: seq<Byte>, v: Vma, read: nat, now: nat)
    requires read % 4096 == 0 && 0 < now <= 4096 && v.dataOffset + read + now <= |file|
    ensures CopySteps(file, v, read + now)
         == CopySteps(file, v, read) + [Wrote(v.start + read, file[v.dataOffset + read..v.dataOffset + read + now])]
  {
    assert (read + now - 1) / 4096 * 4096 == read;
  }

  /** The bytes of a run of writes, one after the other. */
  function BytesWritten(steps: seq<Report>): seq<Byte> {
    if steps == [] then []
    else BytesWritten(steps[..|steps| - 1]) + (if steps[|steps| - 1].Wrote? then steps[|steps| - 1].bytes else [])
  }

  lemma {:induction false} BytesAfter(steps: seq<Report>, step: Report)
    requires step.Wrote?
    ensures BytesWritten(steps + [step]) == BytesWritten(steps) + step.bytes
  {
    assert (steps + [step])[..|steps|] == steps;
  }

  /** Every step is a write of at most a page, right behind the ones before it. */
  ghost predicate InPlace(steps: seq<Report>, start: int) {
    forall i :: 0 <= i < |steps| ==>
      steps[i].Wrote? && 0 < |steps[i].bytes| <= 4096 && steps[i].at == start + |BytesWritten(steps[..i])|
  }

  lemma {:induction false} InPlaceAfter(steps: seq<Report>, start: int, step: Report)
    requires InPlace(steps, start) && step.Wrote? && 0 < |step.bytes| <= 4096 && step.at == start + |BytesWritten(steps)|
    ensures InPlace(steps + [step], start)
  {
    hide BytesWritten;
    var more := steps + [step];
    forall i | 0 <= i < |more|
      ensures more[i].Wrote? && 0 < |more[i].bytes| <= 4096 && more[i].at == start + |BytesWritten(more[..i])|
    {
      assert more[..i] == steps[..i];
      assert steps[..|steps|] == steps;
    }
  }

  lemma {:induction false} LastChunk(file: seq<Byte>, v: Vma, n: nat) returns (last: nat)
    requires n > 0 && v.dataOffset + n <= |file|
    ensures last < n <= last + 4096
    ensures CopySteps(file, v, n) == CopySteps(file, v, last) + [Wrote(v.start + last, file[v.dataOffset + last..v.dataOffset + n])]
  {
    last := (n - 1) / 4096 * 4096;
  }

  lemma {:induction false} Joined(file: seq<Byte>, a: nat, b: nat, c: nat)
    requires a <= b <= c <= |file|
    ensures file[a..b] + file[b..c] == file[a..c]
  {
  }

  lemma {:induction false} ChunksJoin(file: seq<Byte>, v: Vma, n: nat)
    requires v.dataOffset + n <= |file|
    ensures BytesWritten(CopySteps(file, v, n)) == file[v.dataOffset..v.dataOffset + n]
  {
    if n > 0 {
      hide CopySteps, BytesWritten;
      var last := LastChunk(file, v, n);
      ChunksJoin(file, v, last);
      BytesAfter(CopySteps(file, v, last), Wrote(v.start + last, file[v.dataOffset + last..v.dataOffset + n]));
      Joined(file, v.dataOffset, v.dataOffset + last, v.dataOffset + n);
    }
  }

  lemma {:induction false} ChunksInPlace(file: seq<Byte>, v: Vma, n: nat)
    requires v.dataOffset + n <= |file|
    ensures InPlace(CopySteps(file, v, n), v.start)
  {
    if n > 0 {
      hide CopySteps, BytesWritten, InPlace;
      var last := LastChunk(file, v, n);
      ChunksInPlace(file, v, last);
      ChunksJoin(file, v, last);
      InPlaceAfter(CopySteps(file, v, last), v.start, Wrote(v.start + last, file[v.dataOffset + last..v.dataOffset + n]));
    }
  }

  /** Whatever the chunks, together they are the payload, each at its place. */
  lemma {:induction false} ChunksAreThePayload(file: seq<Byte>, v: Vma, n: nat)
    requires v.dataOffset + n <= |file|
    ensures BytesWritten(CopySteps(file, v, n)) == file[v.dataOffset..v.dataOffset + n]
    ensures InPlace(CopySteps(file, v, n), v.start)
  {
    ChunksJoin(file, v, n);
    ChunksInPlace(file, v, n);
  }

  /** The copying loop of one area. It changes nothing but bytes of the area. */
  method CopyPayload(c: Tracee, file: seq<Byte>, vma: Vma, ghost at: int) returns (ok: bool)
    modifies c`space, c`reported, c`failed
    ensures if ok then c.failed == old(c.failed) else old(c.failed) ==> c.failed
    ensures !ok ==> c.failed || !PayloadInside(file, vma)
    ensures ok ==> PayloadInside(file, vma) && c.reported == old(c.reported) + CopySteps(file, vma, vma.size)
    ensures ok ==> Overwritten(old(c.space), c.space, vma.start, vma.size)
    ensures ok && vma.size > 0 ==> Filled(c.space, file, vma, vma.size, at, false)
  {
    hide CopySteps, Filled, Overlay;
    var read: nat := 0;
    NothingCopied(file, vma);
    while read < vma.size
      invariant c.failed == old(c.failed)
      invariant read <= vma.size && (read < vma.size ==> read % 4096 == 0)
      invariant read > 0 ==> vma.dataOffset + read <= |file|
      invariant c.reported == old(c.reported) + CopySteps(file, vma, read)
      invariant Overwritten(old(c.space), c.space, vma.start, vma.size)
      invariant read > 0 ==> Filled(c.space, file, vma, read, at, false)
    {
      hide Overwritten;
      var now := vma.size - read;
      if now > 4096 {
        now := 4096;
      }
      ok := c.Try(); // the read of the payload
      if !ok || vma.dataOffset + read + now > |file| {
        return false;
      }
      var buffer := file[vma.dataOffset + read..vma.dataOffset + read + now];
      ghost var s := c.space;
      var written := c.WriteMemory(vma.start + read, buffer);
      if written != now {
        return false;
      }
      WriteFills(old(c.space), s, c.space, file, vma, read, buffer, at);
      OneMoreCopy(file, vma, read, now);
      read := read + now;
    }
    ok := true;
  }

  /**
   Maps one area afresh and copies its payload in, 4096 bytes at a time.
   Whatever the area, and whether or not the mapping call was made, success
   means that every byte of the payload was written and is there. Nothing but a
   failed call or a payload that cannot be read makes it fail.
   */
  method RestoreVma(c: Tracee, file: seq<Byte>, vma: Vma) returns (ok: bool, ghost mapped: bool)
    requires c.Live()
    modifies c`space, c`regs, c`fds, c`lost, c`reported, c`cut, c`phase, c`endSeen, c`failed
    ensures c.Followed() && (ok ==> c.Live()) && (old(c.lost) ==> c.lost) && old(c.cut) <= c.cut
    ensures if ok then c.failed == old(c.failed) else old(c.failed) ==> c.failed
    ensures !ok ==> c.failed || Unreadable(file, vma)
    ensures ok ==> !Unreadable(file, vma) && PayloadInside(file, vma)
    ensures ok ==> c.reported == old(c.reported) + ([MmapCall(vma)] + CopySteps(file, vma, vma.size))
    ensures ok ==> c.regs == old(c.regs) && c.fds == old(c.fds)
    ensures ok && !mapped ==> !Executable(old(c.space), old(c.regs[RIP])) || SYS_MMAP in c.cut
    ensures ok ==> AreaRestored(old(c.space), c.space, file, vma, old(c.regs[RIP]), c.lost, mapped)
  {
    hide CopySteps, Punched, Left, RoundUp, Remapped, Filled, Executable, Overwritten;
    ghost var before, site := c.space, c.regs[RIP];
    ok, mapped := InjectMmap(c, vma);
    if !ok || vma.dataOffset >= TWO_63 {
      return false, mapped;
    }
    ok := c.Try(); // the seek to the payload
    if !ok {
      return;
    }
    ghost var mid := c.space;
    ok := CopyPayload(c, file, vma, site);
    if ok {
      SameLines(mid, c.space, vma);
      if mapped {
        RemappedWritten(before, mid, c.space, vma, site, c.lost);
      }
      if vma.size > 0 {
        FilledLost(c.space, file, vma, vma.size, site, c.lost);
      }
    }
  }

  lemma {:induction false} SameLines(s: Space, s': Space, v: Vma)
    requires Overwritten(s, s', v.start, v.size)
    ensures s'.lines == s.lines
  {
  }

  lemma {:induction false} NothingCopied(file: seq<Byte>, v: Vma)
    ensures CopySteps(file, v, 0) == []
  {
  }

  // ----- all areas -----

  predicate OutsideFirst(a: int, vmas: seq<Vma>, n: nat)
    requires n <= |vmas|
  {
    forall i :: 0 <= i < n ==> !InArea(a, vmas[i])
  }

  /**
   The first `n` areas hold their payloads, and if every mapping call was made,
   have every right; the rest of memory is as before.
   */
  ghost predicate AreasRestored(before: Space, after: Space, file: seq<Byte>, vmas: seq<Vma>, n: nat, at: int, lost: bool, mapped: bool)
    requires n <= |vmas|
  {
    && (forall i :: 0 <= i < n ==>
          Filled(after, file, vmas[i], vmas[i].size, at, lost) && (mapped ==> HasProt(after, vmas[i], PROT_RWX)))
    && (forall a :: a in before.cells && OutsideFirst(a, vmas, n) ==>
          a in after.cells && CellKept(before.cells[a], after.cells[a], a, at, lost))
    && (forall l :: l in before.lines && (forall i :: 0 <= i < n ==> Apart(l.start, l.size, vmas[i].start, vmas[i].size)) ==>
          l in after.lines)
  }

  /** Whether or not its mapping call was made, restoring an area leaves everything outside it alone. */
  ghost predicate OutsideKept(s: Space, s': Space, v: Vma, at: int, lost: bool) {
    && (forall a :: a in s.cells && !InArea(a, v) ==> a in s'.cells && CellKept(s.cells[a], s'.cells[a], a, at, lost))
    && (forall l :: l in s.lines && Apart(l.start, l.size, v.start, v.size) ==> l in s'.lines)
  }

  lemma {:induction false} AreaAlone(s: Space, s': Space, file: seq<Byte>, v: Vma, at: int, lost: bool, mapped: bool)
    requires PageAligned(v) && AreaRestored(s, s', file, v, at, lost, mapped)
    ensures OutsideKept(s, s', v, at, lost)
    ensures mapped ==> HasProt(s', v, PROT_RWX)
    ensures Executable(s, at) ==> Executable(s', at)
  {
    hide Filled, Punched, Planted;
    RoundUpPages(v.size);
    if mapped {
      forall l | l in s.lines && Apart(l.start, l.size, v.start, v.size) ensures l in s'.lines {
        PunchKeeps(s.lines, v.start, v.size, l);
      }
      forall a | v.start <= a < v.start + v.size ensures a in s'.cells && s'.cells[a].prot == PROT_RWX {
        assert In(a, v.start, v.size);
      }
      if Executable(s, at) {
        RemappedExecutable(s, s', v.start, v.size, at, lost);
      }
    } else {
      var mid :| Left(s, mid, at, lost) && Overwritten(mid, s', v.start, v.size);
      LeftExecutable(s, mid, at, lost);
      forall a | a in s.cells && !InArea(a, v) ensures a in s'.cells && CellKept(s.cells[a], s'.cells[a], a, at, lost) {
        PlantedAt(s, at, a);
      }
    }
  }

  lemma {:induction false} EarlierAreaKept(s: Space, s': Space, file: seq<Byte>, v: Vma, w: Vma, at: int, lost: bool, lost': bool, mapped: bool)
    requires Filled(s, file, v, v.size, at, lost) && (mapped ==> HasProt(s, v, PROT_RWX)) && (lost ==> lost')
    requires Apart(v.start, v.size, w.start, w.size) && OutsideKept(s, s', w, at, lost')
    ensures Filled(s', file, v, v.size, at, lost') && (mapped ==> HasProt(s', v, PROT_RWX))
  {
    forall a | v.start <= a < v.start + v.size
      ensures a in s'.cells && ByteKept(file[v.dataOffset + (a - v.start)], s'.cells[a].value, a, at, lost')
      ensures mapped ==> s'.cells[a].prot == PROT_RWX
    {
      assert !InArea(a, w);
    }
  }

  lemma {:induction false} OneMoreArea(before: Space, s: Space, s': Space, file: seq<Byte>, vmas: seq<Vma>, i: nat,
                                       at: int, lost: bool, lost': bool, mapped: bool, mappedNow: bool)
    requires i < |vmas| && AreasOk(vmas) && (lost ==> lost')
    requires AreasRestored(before, s, file, vmas, i, at, lost, mapped)
    requires AreaRestored(s, s', file, vmas[i], at, lost', mappedNow)
    ensures AreasRestored(before, s', file, vmas, i + 1, at, lost', mapped && mappedNow)
  {
    var w := vmas[i];
    assert PageAligned(w);
    AreaAlone(s, s', file, w, at, lost', mappedNow);
    hide Filled, CellKept, HasProt, Remapped, Punched, Overwritten, Left;
    forall j | 0 <= j < i + 1
      ensures Filled(s', file, vmas[j], vmas[j].size, at, lost')
      ensures mapped && mappedNow ==> HasProt(s', vmas[j], PROT_RWX)
    {
      if j < i {
        EarlierAreaKept(s, s', file, vmas[j], w, at, lost, lost', mapped);
      }
    }
    forall a | a in before.cells && OutsideFirst(a, vmas, i + 1)
      ensures a in s'.cells && CellKept(before.cells[a], s'.cells[a], a, at, lost')
    {
      assert !InArea(a, w) && OutsideFirst(a, vmas, i);
      KeptTwice(before.cells[a], s.cells[a], s'.cells[a], a, at, lost, lost');
    }
    forall l | l in before.lines && (forall j :: 0 <= j < i + 1 ==> Apart(l.start, l.size, vmas[j].start, vmas[j].size))
      ensures l in s'.lines
    {
      assert Apart(l.start, l.size, w.start, w.size);
      assert l in s.lines;
    }
  }

  lemma {:induction false} AreasLessMapped(before: Space, s: Space, file: seq<Byte>, vmas: seq<Vma>, n: nat, at: int, lost: bool,
                                           mapped: bool, mapped': bool)
    requires n <= |vmas| && AreasRestored(before, s, file, vmas, n, at, lost, mapped) && (mapped' ==> mapped)
    ensures AreasRestored(before, s, file, vmas, n, at, lost, mapped')
  {
    hide Filled, HasProt, CellKept;
  }

  lemma {:induction false} KeptTwice(c: Cell, c': Cell, c'': Cell, a: int, at: int, lost: bool, lost': bool)
    requires CellKept(c, c', a, at, lost) && CellKept(c', c'', a, at, lost') && (lost ==> lost')
    ensures CellKept(c, c'', a, at, lost')
  {
  }

  predicate PayloadsInside(file: seq<Byte>, vmas: seq<Vma>) {
    forall i :: 0 <= i < |vmas| ==> PayloadInside(file, vmas[i])
  }

  /** For each area its mapping call and the writes of its whole payload. */
  function AreaSteps(file: seq<Byte>, vmas: seq<Vma>): seq<Report>
    requires PayloadsInside(file, vmas)
  {
    if vmas == [] then []
    else
      var v := vmas[|vmas| - 1];
      AreaSteps(file, vmas[..|vmas| - 1]) + ([MmapCall(v)] + CopySteps(file, v, v.size))
  }

  lemma {:induction false} OneMoreAreaStep(file: seq<Byte>, vmas: seq<Vma>, i: nat)
    requires i < |vmas| && PayloadsInside(file, vmas[..i]) && PayloadInside(file, vmas[i])
    ensures PayloadsInside(file, vmas[..i + 1])
    ensures AreaSteps(file, vmas[..i + 1]) == AreaSteps(file, vmas[..i]) + ([MmapCall(vmas[i])] + CopySteps(file, vmas[i], vmas[i].size))
  {
    var more := vmas[..i + 1];
    assert more[..i] == vmas[..i];
    forall k | 0 <= k < |more| ensures PayloadInside(file, more[k]) {
      assert k < i ==> more[k] == vmas[..i][k];
    }
  }

  /**
   Restores every area in table order. The payloads are all there afterwards,
   whichever mapping calls were made; if no call fails, they are exactly when
   every payload can be read.
   */
  method RestoreAreas(c: Tracee, file: seq<Byte>, vmas: seq<Vma>) returns (ok: bool)
    requires c.Live()
    modifies c`space, c`regs, c`fds, c`lost, c`reported, c`cut, c`phase, c`endSeen, c`failed
    ensures c.Followed() && (ok ==> c.Live()) && (old(c.lost) ==> c.lost) && old(c.cut) <= c.cut
    ensures if ok then c.failed == old(c.failed) else old(c.failed) ==> c.failed
    ensures !ok ==> c.failed || exists i :: 0 <= i < |vmas| && Unreadable(file, vmas[i])
    ensures ok ==> !exists i :: 0 <= i < |vmas| && Unreadable(file, vmas[i])
    ensures ok ==> PayloadsInside(file, vmas) && c.reported == old(c.reported) + AreaSteps(file, vmas)
    ensures ok ==> c.regs == old(c.regs) && c.fds == old(c.fds)
    ensures ok && AreasOk(vmas) ==>
      AreasRestored(old(c.space), c.space, file, vmas, |vmas|, old(c.regs[RIP]), c.lost,
                    Made(old(c.space), old(c.regs[RIP]), c.cut, SYS_MMAP))
    ensures ok && AreasOk(vmas) && Executable(old(c.space), old(c.regs[RIP])) ==> Executable(c.space, c.regs[RIP])
  {
    hide Filled, HasProt, Remapped, AreaRestored, AreasRestored, Executable, AreaSteps, CopySteps, PayloadsInside, PayloadInside, Unreadable;
    ghost var site, before := c.regs[RIP], c.space;
    ghost var fit := Executable(before, site);
    NothingRestored(before, file, vmas, site, c.lost, Made(before, site, c.cut, SYS_MMAP));
    for i := 0 to |vmas|
      invariant c.Live() && (old(c.lost) ==> c.lost) && old(c.cut) <= c.cut && c.failed == old(c.failed)
      invariant forall j :: 0 <= j < i ==> !Unreadable(file, vmas[j])
      invariant PayloadsInside(file, vmas[..i]) && c.reported == old(c.reported) + AreaSteps(file, vmas[..i])
      invariant c.regs == old(c.regs) && c.fds == old(c.fds)
      invariant AreasOk(vmas) ==> AreasRestored(before, c.space, file, vmas, i, site, c.lost, Made(before, site, c.cut, SYS_MMAP))
      invariant AreasOk(vmas) && fit ==> Executable(c.space, site)
    {
      ghost var s, lost, allMapped, mapped := c.space, c.lost, Made(before, site, c.cut, SYS_MMAP), false;
      ok, mapped := RestoreVma(c, file, vmas[i]);
      if !ok {
        return;
      }
      if AreasOk(vmas) {
        assert PageAligned(vmas[i]);
        OneMoreArea(before, s, c.space, file, vmas, i, site, lost, c.lost, allMapped, mapped);
        AreasLessMapped(before, c.space, file, vmas, i + 1, site, c.lost, allMapped && mapped, Made(before, site, c.cut, SYS_MMAP));
        AreaAlone(s, c.space, file, vmas[i], site, c.lost, mapped);
      }
      OneMoreAreaStep(file, vmas, i);
    }
    assert vmas[..|vmas|] == vmas;
    ok := true;
  }

  lemma {:induction false} NothingRestored(s: Space, file: seq<Byte>, vmas: seq<Vma>, at: int, lost: bool, mapped: bool)
    ensures AreasRestored(s, s, file, vmas, 0, at, lost, mapped)
    ensures PayloadsInside(file, vmas[..0]) && AreaSteps(file, vmas[..0]) == []
  {
  }

  // ----- protections -----

  /** Outside every one of the first `n` areas but the site. */
  predicate NotYet(a: int, vmas: seq<Vma>, n: nat, site: nat)
    requires n <= |vmas|
  {
    forall i :: 0 <= i < n && i != site ==> !InArea(a, vmas[i])
  }

  /** Protections as recorded for the first `n` areas except `site`, if every call was made; everything else as before. */
  ghost predicate ProtectedUpTo(before: Space, s: Space, vmas: seq<Vma>, n: nat, site: nat, at: int, lost: bool, exact: bool)
    requires n <= |vmas|
  {
    && s.lines == before.lines
    && s.cells.Keys == before.cells.Keys
    && (forall a :: a in before.cells ==> ByteKept(before.cells[a].value, s.cells[a].value, a, at, lost))
    && (exact ==> forall i :: 0 <= i < n && i != site ==> HasProt(s, vmas[i], vmas[i].prot))
    && (forall a :: a in before.cells && NotYet(a, vmas, n, site) ==> s.cells[a].prot == before.cells[a].prot)
  }

  /** `site` is the area that holds the injected instruction, or the count when none does. */
  predicate IsSite(vmas: seq<Vma>, site: nat, at: int) {
    && site <= |vmas|
    && (site < |vmas| ==> InArea(at, vmas[site]))
    && (forall i :: 0 <= i < |vmas| && i != site ==> !InArea(at, vmas[i]))
  }

  lemma {:induction false} SiteStillExecutable(before: Space, s: Space, vmas: seq<Vma>, n: nat, site: nat, at: int, lost: bool, exact: bool)
    requires n <= |vmas| && ProtectedUpTo(before, s, vmas, n, site, at, lost, exact)
    requires IsSite(vmas, site, at) && SiteTogether(vmas, at) && Executable(before, at)
    ensures Executable(s, at)
  {
    assert NotYet(at, vmas, n, site) && NotYet(at + 1, vmas, n, site);
  }

  lemma {:induction false} OneMoreProtected(before: Space, s: Space, s': Space, vmas: seq<Vma>, n: nat, site: nat,
                                            at: int, lost: bool, lost': bool, exact: bool)
    requires n < |vmas| && n != site && AreasOk(vmas) && ProtectedUpTo(before, s, vmas, n, site, at, lost, exact) && (lost ==> lost')
    requires exact ==> HasProt(before, vmas[n], PROT_RWX)
    requires Reprotected(s, s', vmas[n].start, vmas[n].size, vmas[n].prot, at, lost') || (s' == s && vmas[n].prot == PROT_RWX)
    ensures ProtectedUpTo(before, s', vmas, n + 1, site, at, lost', exact)
  {
    forall i | 0 <= i < n + 1 && i != site && exact ensures HasProt(s', vmas[i], vmas[i].prot) {
      forall a | vmas[i].start <= a < vmas[i].start + vmas[i].size
        ensures a in s'.cells && s'.cells[a].prot == vmas[i].prot
      {
        if i < n {
          assert Apart(vmas[i].start, vmas[i].size, vmas[n].start, vmas[n].size);
          assert HasProt(s, vmas[i], vmas[i].prot);
        } else {
          assert forall j :: 0 <= j < n && j != site ==> Apart(vmas[j].start, vmas[j].size, vmas[n].start, vmas[n].size);
          assert NotYet(a, vmas, n, site);
          assert a in before.cells;
        }
      }
    }
    forall a | a in before.cells && NotYet(a, vmas, n + 1, site) ensures s'.cells[a].prot == before.cells[a].prot {
      assert !InArea(a, vmas[n]);
      assert NotYet(a, vmas, n, site);
    }
  }

  /** A protecting call that was not made leaves the protections so far as they are. */
  lemma {:induction false} NotProtected(before: Space, s: Space, s': Space, vmas: seq<Vma>, n: nat, m: nat, site: nat,
                                        at: int, lost: bool, lost': bool, exact: bool)
    requires n <= m <= |vmas| && ProtectedUpTo(before, s, vmas, n, site, at, lost, exact) && (lost ==> lost')
    requires Left(s, s', at, lost')
    ensures ProtectedUpTo(before, s', vmas, m, site, at, lost', false)
  {
    hide HasProt, Planted;
    forall a | a in before.cells
      ensures a in s'.cells && ByteKept(before.cells[a].value, s'.cells[a].value, a, at, lost')
      ensures NotYet(a, vmas, m, site) ==> s'.cells[a].prot == before.cells[a].prot
    {
      PlantedAt(s, at, a);
      assert NotYet(a, vmas, m, site) ==> NotYet(a, vmas, n, site);
    }
    LeftExecutable(s, s', at, lost');
  }

  lemma {:induction false} LessExact(before: Space, s: Space, vmas: seq<Vma>, n: nat, site: nat, at: int, lost: bool, exact: bool, exact': bool)
    requires n <= |vmas| && ProtectedUpTo(before, s, vmas, n, site, at, lost, exact) && (exact' ==> exact)
    ensures ProtectedUpTo(before, s, vmas, n, site, at, lost, exact')
  {
    hide HasProt;
  }

  /** The test the engine finds the site by; the sum may wrap. */
  predicate SeemsToHold(v: Vma, at: U64) {
    v.start <= at < Add64(v.start, v.size)
  }

  predicate FirstSite(vmas: seq<Vma>, site: nat, at: U64) {
    && site <= |vmas|
    && (site < |vmas| ==> SeemsToHold(vmas[site], at))
    && forall k :: 0 <= k < site ==> !SeemsToHold(vmas[k], at)
  }

  /** Looks for the area that holds the injection site. */
  method FindSite(vmas: seq<Vma>, at: U64) returns (site: nat)
    ensures FirstSite(vmas, site, at)
    ensures AreasOk(vmas) ==> IsSite(vmas, site, at)
  {
    for i := 0 to |vmas|
      invariant forall k :: 0 <= k < i ==> !SeemsToHold(vmas[k], at)
    {
      if at >= vmas[i].start && at < Add64(vmas[i].start, vmas[i].size) {
        if AreasOk(vmas) {
          FirstIsSite(vmas, i, at);
        }
        return i;
      }
    }
    if AreasOk(vmas) {
      FirstIsSite(vmas, |vmas|, at);
    }
    return |vmas|;
  }

  lemma {:induction false} FirstIsSite(vmas: seq<Vma>, site: nat, at: U64)
    requires AreasOk(vmas) && FirstSite(vmas, site, at)
    ensures IsSite(vmas, site, at)
  {
    forall k | 0 <= k < |vmas| ensures SeemsToHold(vmas[k], at) <==> InArea(at, vmas[k]) {
      assert PageAligned(vmas[k]);
    }
    forall k | 0 <= k < |vmas| && k != site ensures !InArea(at, vmas[k]) {
      if site < k {
        assert Apart(vmas[site].start, vmas[site].size, vmas[k].start, vmas[k].size);
      }
    }
  }

  /** Every area at its recorded protection, if every call was made; every byte and every protection elsewhere as before. */
  ghost predicate AllProtected(before: Space, after: Space, vmas: seq<Vma>, at: int, lost: bool, exact: bool) {
    && after.lines == before.lines
    && after.cells.Keys == before.cells.Keys
    && (forall a :: a in before.cells ==> ByteKept(before.cells[a].value, after.cells[a].value, a, at, lost))
    && (exact ==> forall i :: 0 <= i < |vmas| ==> HasProt(after, vmas[i], vmas[i].prot))
    && (forall a :: a in before.cells && OutsideFirst(a, vmas, |vmas|) ==> after.cells[a].prot == before.cells[a].prot)
  }

  lemma {:induction false} SiteProtectedLast(before: Space, s: Space, s': Space, vmas: seq<Vma>, site: nat, at: int,
                                             lost: bool, lost': bool, exact: bool)
    requires AreasOk(vmas) && site <= |vmas| && ProtectedUpTo(before, s, vmas, |vmas|, site, at, lost, exact) && (lost ==> lost')
    requires exact && site < |vmas| ==> HasProt(before, vmas[site], PROT_RWX)
    requires site == |vmas| ==> s' == s
    requires site < |vmas| ==>
      Reprotected(s, s', vmas[site].start, vmas[site].size, vmas[site].prot, at, lost') || (s' == s && vmas[site].prot == PROT_RWX)
    ensures AllProtected(before, s', vmas, at, lost', exact)
  {
    forall i | 0 <= i < |vmas| && exact ensures HasProt(s', vmas[i], vmas[i].prot) {
      forall a | vmas[i].start <= a < vmas[i].start + vmas[i].size
        ensures a in s'.cells && s'.cells[a].prot == vmas[i].prot
      {
        if i == site {
          assert forall j :: 0 <= j < |vmas| && j != site ==>
            Apart(vmas[j].start, vmas[j].size, vmas[site].start, vmas[site].size);
          assert NotYet(a, vmas, |vmas|, site);
          assert a in before.cells;
        } else {
          assert HasProt(s, vmas[i], vmas[i].prot);
          assert site < |vmas| ==> Apart(vmas[if i < site then i else site].start, vmas[if i < site then i else site].size,
                       vmas[if i < site then site else i].start, vmas[if i < site then site else i].size);
        }
      }
    }
    forall a | a in before.cells && OutsideFirst(a, vmas, |vmas|) ensures s'.cells[a].prot == before.cells[a].prot {
      assert NotYet(a, vmas, |vmas|, site);
      assert site < |vmas| ==> !InArea(a, vmas[site]);
    }
  }

  /** What exact protections start from: every area mapped with every right, the site executable. */
  ghost predicate ReadyToProtect(s: Space, vmas: seq<Vma>, at: int) {
    && AreasOk(vmas) && SiteTogether(vmas, at) && Executable(s, at)
    && forall i :: 0 <= i < |vmas| ==> HasProt(s, vmas[i], PROT_RWX)
  }

  /** The protections become exact: they start right and no call was cut off. */
  ghost predicate Protectable(s: Space, vmas: seq<Vma>, at: int, cut: set<nat>) {
    ReadyToProtect(s, vmas, at) && SYS_MPROTECT !in cut
  }

  /** The protecting calls for the first `n` areas; the site is left out, and so is whatever has every right. */
  function MprotectCalls(vmas: seq<Vma>, n: nat, site: nat): seq<Report>
    requires n <= |vmas|
  {
    if n == 0 then []
    else
      var rest := MprotectCalls(vmas, n - 1, site);
      if n - 1 == site || vmas[n - 1].prot == PROT_RWX then rest else rest + [MprotectCall(vmas[n - 1])]
  }

  function LastProtect(vmas: seq<Vma>, site: nat): seq<Report> {
    if site < |vmas| && vmas[site].prot != PROT_RWX then [MprotectCall(vmas[site])] else []
  }

  /** Whatever is protected next, the site is executable when it is. */
  lemma {:induction false} NextProtect(before: Space, s: Space, vmas: seq<Vma>, n: nat, site: nat, at: int, lost: bool, exact: bool)
    requires n <= |vmas| && ReadyToProtect(before, vmas, at) && IsSite(vmas, site, at)
    requires ProtectedUpTo(before, s, vmas, n, site, at, lost, exact)
    ensures Executable(s, at)
  {
    SiteStillExecutable(before, s, vmas, n, site, at, lost, exact);
  }

  lemma {:induction false} SizeRounded(vmas: seq<Vma>, k: nat)
    requires AreasOk(vmas) && k < |vmas|
    ensures RoundUp(vmas[k].size) == vmas[k].size
  {
    assert PageAligned(vmas[k]);
    RoundUpPages(vmas[k].size);
  }

  /** The protection of the site, after all the others. */
  lemma {:induction false} SiteDone(before: Space, s: Space, s': Space, vmas: seq<Vma>, site: nat, at: int, lost: bool, lost': bool,
                                    exact: bool, ran: bool)
    requires AreasOk(vmas) && site <= |vmas| && ProtectedUpTo(before, s, vmas, |vmas|, site, at, lost, exact) && (lost ==> lost')
    requires exact && site < |vmas| ==> HasProt(before, vmas[site], PROT_RWX)
    requires ran ==> site < |vmas| && Reprotected(s, s', vmas[site].start, vmas[site].size, vmas[site].prot, at, lost')
    requires !ran ==> Left(s, s', at, lost')
    requires !ran && exact ==> s' == s && (site < |vmas| ==> vmas[site].prot == PROT_RWX)
    ensures AllProtected(before, s', vmas, at, lost', exact)
  {
    hide HasProt, Reprotected;
    if ran || exact {
      SiteProtectedLast(before, s, s', vmas, site, at, lost, lost', exact);
    } else {
      NotProtected(before, s, s', vmas, |vmas|, |vmas|, site, at, lost, lost', exact);
      NoneExact(before, s', vmas, site, at, lost');
    }
  }

  lemma {:induction false} NoneExact(before: Space, s: Space, vmas: seq<Vma>, site: nat, at: int, lost: bool)
    requires ProtectedUpTo(before, s, vmas, |vmas|, site, at, lost, false)
    ensures AllProtected(before, s, vmas, at, lost, false)
  {
    forall a | a in before.cells && OutsideFirst(a, vmas, |vmas|) ensures s.cells[a].prot == before.cells[a].prot {
      assert NotYet(a, vmas, |vmas|, site);
    }
  }

  /** One round of the loop: the protection of an area that does not hold the site. */
  method ProtectArea(c: Tracee, vmas: seq<Vma>, i: nat, ghost before: Space, ghost site: nat) returns (ok: bool)
    requires c.Live() && i < |vmas| && i != site && (AreasOk(vmas) ==> IsSite(vmas, site, c.regs[RIP]))
    requires AreasOk(vmas) ==>
      ProtectedUpTo(before, c.space, vmas, i, site, c.regs[RIP], c.lost,
                    Protectable(before, vmas, c.regs[RIP], c.cut))
    modifies c`space, c`regs, c`fds, c`lost, c`reported, c`cut, c`phase, c`endSeen, c`failed
    ensures c.Followed() && (ok ==> c.Live()) && (old(c.lost) ==> c.lost) && old(c.cut) <= c.cut
    ensures c.failed == (old(c.failed) || !ok)
    ensures ok ==> c.reported == old(c.reported) + if vmas[i].prot == PROT_RWX then [] else [MprotectCall(vmas[i])]
    ensures ok ==> c.regs == old(c.regs) && c.fds == old(c.fds)
    ensures ok && AreasOk(vmas) ==>
      ProtectedUpTo(before, c.space, vmas, i + 1, site, c.regs[RIP], c.lost,
                    Protectable(before, vmas, c.regs[RIP], c.cut))
  {
    hide HasProt, ProtectedUpTo, Reprotected, SiteTogether, Executable, IsSite, Left, RoundUp, AreasOk, MprotectCall;
    ghost var at := c.regs[RIP];
    ghost var ready := ReadyToProtect(before, vmas, at);
    ghost var s, lost, exact, ran := c.space, c.lost, Protectable(before, vmas, at, c.cut), true;
    if ready {
      NextProtect(before, s, vmas, i, site, at, lost, exact);
    }
    ok := true;
    if vmas[i].prot != PROT_RWX {
      ok, ran := InjectMprotect(c, vmas[i]);
      if !ok {
        return;
      }
    }
    if AreasOk(vmas) {
      SizeRounded(vmas, i);
      if ran {
        OneMoreProtected(before, s, c.space, vmas, i, site, at, lost, c.lost, exact);
      } else {
        NotProtected(before, s, c.space, vmas, i, i + 1, site, at, lost, c.lost, exact);
      }
      LessExact(before, c.space, vmas, i + 1, site, at, c.lost, exact && ran, Protectable(before, vmas, at, c.cut));
    }
  }

  /** The protections of every area but the site, then that of the site. */
  method RestoreProtections(c: Tracee, vmas: seq<Vma>) returns (ok: bool, ghost site: nat)
    requires c.Live()
    modifies c`space, c`regs, c`fds, c`lost, c`reported, c`cut, c`phase, c`endSeen, c`failed
    ensures c.Followed() && (ok ==> c.Live()) && (old(c.lost) ==> c.lost) && old(c.cut) <= c.cut
    ensures c.failed == (old(c.failed) || !ok)
    ensures ok ==> FirstSite(vmas, site, old(c.regs[RIP]))
    ensures ok ==> c.reported == old(c.reported) + (MprotectCalls(vmas, |vmas|, site) + LastProtect(vmas, site))
    ensures ok ==> c.regs == old(c.regs) && c.fds == old(c.fds)
    ensures ok && AreasOk(vmas) ==>
      AllProtected(old(c.space), c.space, vmas, old(c.regs[RIP]), c.lost,
                   Protectable(old(c.space), vmas, old(c.regs[RIP]), c.cut))
  {
    hide HasProt, ProtectedUpTo, AllProtected, Reprotected, SiteTogether, Executable, FirstSite, IsSite, Left, RoundUp, AreasOk;
    hide MprotectCall;
    site := 0;
    var regs;
    ok, regs := c.GetRegs();
    if !ok {
      return;
    }
    var at := regs[RIP];
    var last := FindSite(vmas, at);
    site := last;
    ghost var before := c.space;
    ghost var ready := ReadyToProtect(before, vmas, at);
    NothingProtected(before, vmas, site, at, c.lost, Protectable(before, vmas, at, c.cut));
    for i := 0 to |vmas|
      invariant c.regs == old(c.regs) && c.fds == old(c.fds) && c.Live() && (old(c.lost) ==> c.lost) && old(c.cut) <= c.cut
      invariant c.failed == old(c.failed)
      invariant c.reported == old(c.reported) + MprotectCalls(vmas, i, site) && site == last
      invariant AreasOk(vmas) ==> ProtectedUpTo(before, c.space, vmas, i, site, at, c.lost, Protectable(before, vmas, at, c.cut))
    {
      if i == last {
        SkipSite(before, c.space, vmas, i, at, c.lost, Protectable(before, vmas, at, c.cut));
        continue;
      }
      ok := ProtectArea(c, vmas, i, before, site);
      if !ok {
        return;
      }
    }
    ghost var s, lost, exact, ran := c.space, c.lost, Protectable(before, vmas, at, c.cut), false;
    if ready {
      NextProtect(before, s, vmas, |vmas|, site, at, lost, exact);
    }
    SameSpaceLeft(s, at, lost);
    if last < |vmas| && vmas[last].prot != PROT_RWX {
      ok, ran := InjectMprotect(c, vmas[last]);
      if !ok {
        return;
      }
    }
    if AreasOk(vmas) {
      SiteInRange(vmas, site, at);
      if site < |vmas| {
        SizeRounded(vmas, site);
      }
      ghost var exactNow := Protectable(before, vmas, at, c.cut);
      LessExact(before, s, vmas, |vmas|, site, at, lost, exact, exactNow);
      SiteDone(before, s, c.space, vmas, site, at, lost, c.lost, exactNow, ran);
    }
    ok := true;
  }

  lemma {:induction false} SameSpaceLeft(s: Space, at: int, lost: bool)
    ensures Left(s, s, at, lost)
  {
  }

  lemma {:induction false} SiteInRange(vmas: seq<Vma>, site: nat, at: U64)
    requires FirstSite(vmas, site, at)
    ensures site <= |vmas|
  {
  }

  lemma {:induction false} NothingProtected(s: Space, vmas: seq<Vma>, site: nat, at: int, lost: bool, exact: bool)
    ensures ProtectedUpTo(s, s, vmas, 0, site, at, lost, exact)
  {
  }

  lemma {:induction false} SkipSite(before: Space, s: Space, vmas: seq<Vma>, site: nat, at: int, lost: bool, exact: bool)
    requires site < |vmas|
    ensures ProtectedUpTo(before, s, vmas, site, site, at, lost, exact) ==> ProtectedUpTo(before, s, vmas, site + 1, site, at, lost, exact)
  {
    assert forall a :: NotYet(a, vmas, site + 1, site) ==> NotYet(a, vmas, site, site);
  }
}
