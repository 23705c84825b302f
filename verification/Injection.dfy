/**
 Running one system call inside the stopped child: two bytes at rip are swapped
 for the call instruction, the child is stepped once, and code and registers go
 back.
 */
module Injection {
  import opened Bytes
  import opened DumpFormat
  import opened AddressSpace
  import opened Child

  /** The registers a call is made with: its number and six arguments. */
  function CallRegs(regs: seq<U64>, number: U64, a1: U64, a2: U64, a3: U64, a4: U64, a5: U64, a6: U64): (r: seq<U64>)
    requires |regs| == REGS_COUNT
    ensures |r| == REGS_COUNT && r[RIP] == regs[RIP]
    ensures r[RAX] == number && r[RDI] == a1 && r[RSI] == a2 && r[RDX] == a3 && r[R10] == a4 && r[R8] == a5 && r[R9] == a6
  {
    regs[RAX := number][RDI := a1][RSI := a2][RDX := a3][R10 := a4][R8 := a5][R9 := a6]
  }

  /** Plants the opcode at rip, keeping the code that stood there, steps over it and waits for the step. */
  method StepPlanted(c: Tracee) returns (ok: bool, code: U64, end: StepEnd)
    requires c.Live()
    modifies c`space, c`regs, c`fds, c`lost, c`phase, c`endSeen, c`failed, c`cut
    ensures c.lost == old(c.lost) && old(c.cut) <= c.cut
    ensures ok ==> c.cut == if end == CutOff then old(c.cut) + {old(c.regs[RAX])} else old(c.cut)
    ensures c.Followed() && (ok && end != Ended ==> c.Live()) && (ok && end == Ended ==> c.phase != Stopped)
    ensures c.failed == (old(c.failed) || !ok || end == Ended || (end == Stepped && SyscallFailed(c.regs[RAX])))
    ensures ok ==> AllIn(old(c.space), old(c.regs[RIP]), 8) && code == UnLe(BytesAt(old(c.space), old(c.regs[RIP]), 8))
    ensures ok && end == Stepped ==> Executable(old(c.space), old(c.regs[RIP]))
    ensures ok && end == Faulted ==> !Executable(old(c.space), old(c.regs[RIP]))
    ensures ok && end != Stepped ==>
      c.regs == old(c.regs) && c.space == Planted(old(c.space), old(c.regs[RIP])) && c.fds == old(c.fds)
    ensures ok && end == Stepped && !SyscallFailed(c.regs[RAX]) ==>
      Performed(old(c.regs), Planted(old(c.space), old(c.regs[RIP])), c.space, old(c.fds), c.fds)
    ensures ok && end == Stepped && SyscallFailed(c.regs[RAX]) ==> c.fds == old(c.fds)
  {
    hide Performed, Overlay, Executable, UnLe, Le, PlantWord, SyscallFailed;
    var site := c.regs[RIP];
    end := CutOff;
    ok, code := c.Peek(site);
    if !ok {
      return;
    }
    PlantedBytes(BytesAt(c.space, site, 8));
    PlantedIs(c.space, site);
    PlantReady(c.space, site);
    hide Planted, BytesAt;
    ok := c.Poke(site, PlantWord(code), false);
    if !ok {
      return;
    }
    ok, end := c.Step();
    if !ok {
      return;
    }
    ok := c.WaitStep(end); // the status is not looked at
  }

  /**
   Saves the registers, sets those of the call and steps over it. `ran` says
   whether it was made; a signal that cut it off leaves its number in `cut`.
   */
  method MakeCall(c: Tracee, number: U64, a1: U64, a2: U64, a3: U64, a4: U64, a5: U64, a6: U64)
    returns (ok: bool, saved: seq<U64>, code: U64, ghost ran: bool)
    requires c.Live()
    modifies c`space, c`regs, c`fds, c`lost, c`phase, c`endSeen, c`failed, c`cut
    ensures c.Followed() && old(c.cut) <= c.cut && c.lost == old(c.lost)
    ensures c.failed == (old(c.failed) || !ok || c.phase != Stopped || (ran && SyscallFailed(c.regs[RAX])))
    ensures ok ==> saved == old(c.regs)
    ensures ok ==> AllIn(old(c.space), old(c.regs[RIP]), 8) && code == UnLe(BytesAt(old(c.space), old(c.regs[RIP]), 8))
    ensures ok && ran ==> Executable(old(c.space), old(c.regs[RIP])) && c.cut == old(c.cut)
    ensures ok && !ran && c.phase == Stopped ==> !Executable(old(c.space), old(c.regs[RIP])) || c.cut == old(c.cut) + {number}
    ensures ok && !ran ==>
      c.regs[RAX] == number && c.space == Planted(old(c.space), old(c.regs[RIP])) && c.fds == old(c.fds)
    ensures ok && ran && !SyscallFailed(c.regs[RAX]) ==>
      Performed(CallRegs(old(c.regs), number, a1, a2, a3, a4, a5, a6), Planted(old(c.space), old(c.regs[RIP])), c.space, old(c.fds), c.fds)
    ensures ok && ran && SyscallFailed(c.regs[RAX]) ==> c.fds == old(c.fds)
  {
    hide Performed, Executable, BytesAt, UnLe, Planted, SyscallFailed, CallRegs, AllIn;
    code, ran := 0, false;
    ok, saved := c.GetRegs();
    if !ok {
      return;
    }
    ok := c.SetRegs(CallRegs(saved, number, a1, a2, a3, a4, a5, a6));
    if !ok {
      return;
    }
    var end;
    ok, code, end := StepPlanted(c);
    ran := end == Stepped;
  }

  /** Takes the result, then puts back the code, which is not checked, and the registers, which is. */
  method Finish(c: Tracee, saved: seq<U64>, code: U64, ghost bytes: seq<Byte>, ghost call: Report)
    returns (ok: bool, result: U64, ghost putBack: bool)
    requires c.Followed() && |saved| == REGS_COUNT && |bytes| == 8 && code == UnLe(bytes)
    modifies c`space, c`regs, c`lost, c`failed, c`reported
    ensures |c.regs| == REGS_COUNT && (old(c.lost) ==> c.lost)
    ensures c.failed == (old(c.failed) || (!ok && c.phase == Stopped)) && c.phase == old(c.phase)
    ensures c.reported == if ok && !SyscallFailed(result) then old(c.reported) + [call] else old(c.reported)
    ensures ok ==> c.phase == Stopped && c.regs == saved && result == old(c.regs)[RAX]
    ensures ok ==> c.space == AfterCall(old(c.space), saved[RIP], bytes, putBack) && c.lost == (old(c.lost) || !putBack)
  {
    hide Overlay, UnLe, Le;
    result, putBack := 0, false;
    var after;
    ok, after := c.GetRegs();
    if !ok {
      return;
    }
    result := after[RAX];
    LeUnLe(bytes);
    var done := c.Poke(saved[RIP], code, true);
    putBack := done;
    ok := c.SetRegs(saved);
    if ok && !SyscallFailed(result) {
      c.reported := c.reported + [call];
    }
  }

  /**
   One injected call. On success every register is back. Putting the code back
   is not checked: `putBack` says whether it worked, and `mid` is the space the
   call itself left. Nor is it checked how the step ended: `ran` says whether
   the call was made. It was unless the site may not be executed or a signal cut
   the step off; then nothing happened, and the number of the call comes back as
   its result. If the child ended in the step, the call fails.
   */
  method InjectSyscall(c: Tracee, number: U64, a1: U64, a2: U64, a3: U64, a4: U64, a5: U64, a6: U64)
    returns (ok: bool, result: U64, ghost mid: Space, ghost putBack: bool, ghost ran: bool)
    requires c.Live()
    modifies c`space, c`regs, c`fds, c`lost, c`reported, c`cut, c`phase, c`endSeen, c`failed
    ensures c.Followed() && (ok ==> c.Live()) && (old(c.lost) ==> c.lost) && old(c.cut) <= c.cut
    ensures c.failed == (old(c.failed) || !ok || (ran && SyscallFailed(result)))
    ensures ok ==> c.regs == old(c.regs)
    ensures c.reported == if ok && !SyscallFailed(result) then old(c.reported) + [Call(number, a1, a2, a3, a4, a5, a6)] else old(c.reported)
    ensures ok ==> AllIn(old(c.space), old(c.regs[RIP]), 8)
    ensures ok ==> c.lost == (old(c.lost) || !putBack)
    ensures ok ==> c.space == AfterCall(mid, old(c.regs[RIP]), BytesAt(old(c.space), old(c.regs[RIP]), 8), putBack)
    ensures ok && ran ==> Executable(old(c.space), old(c.regs[RIP])) && c.cut == old(c.cut)
    ensures ok && !ran ==> !Executable(old(c.space), old(c.regs[RIP])) || c.cut == old(c.cut) + {number}
    ensures ok && !ran ==> result == number && mid == Planted(old(c.space), old(c.regs[RIP])) && c.fds == old(c.fds)
    ensures ok && ran && !SyscallFailed(result) ==>
      Performed(CallRegs(old(c.regs), number, a1, a2, a3, a4, a5, a6), Planted(old(c.space), old(c.regs[RIP])), mid, old(c.fds), c.fds)
    ensures ok && ran && SyscallFailed(result) ==> c.fds == old(c.fds)
  {
    hide Performed, Executable, BytesAt, UnLe, Planted, SyscallFailed, CallRegs, AfterCall, AllIn;
    result, putBack := 0, false;
    var saved, code;
    ok, saved, code, ran := MakeCall(c, number, a1, a2, a3, a4, a5, a6);
    mid := c.space;
    if !ok {
      return;
    }
    ok, result, putBack := Finish(c, saved, code, BytesAt(old(c.space), saved[RIP], 8), Call(number, a1, a2, a3, a4, a5, a6));
  }

  lemma {:induction false} PlantReady(s: Space, at: int)
    requires AllIn(s, at, 8)
    ensures AllIn(Planted(s, at), at, 8) && BytesAt(Planted(s, at), at, 8)[..2] == OPCODE
    ensures Executable(Planted(s, at), at) <==> Executable(s, at)
  {
  }

  /**
   Why the site has to stay executable, and why a signal must not cut a step
   off: the number of a call is no failure code, and planting and putting back
   leave memory as it was, so a call that was never made looks like one that worked.
   */
  lemma {:induction false} BlindInjection(s: Space, at: int, number: U64)
    requires AllIn(s, at, 8) && number < 512
    ensures !SyscallFailed(number)
    ensures AfterCall(Planted(s, at), at, BytesAt(s, at, 8), true) == s
  {
    PutBackFrame(s, at, true);
  }

  /**
   The cost of not checking that the code went back, for a call that leaves the
   code at the site alone: none exactly when the opcode stood there before.
   */
  lemma {:induction false} LostInstruction(s: Space, at: int, mid: Space)
    requires AllIn(s, at, 8) && AllIn(mid, at, 8) && BytesAt(mid, at, 8) == BytesAt(Planted(s, at), at, 8)
    ensures var code := BytesAt(s, at, 8);
      AfterCall(mid, at, code, false) == AfterCall(mid, at, code, true) <==> code[..2] == OPCODE
  {
    var code, left := BytesAt(s, at, 8), BytesAt(mid, at, 8);
    assert left == OPCODE + code[2..];
    assert left == code <==> code[..2] == OPCODE by {
      assert left[..2] == OPCODE && code == code[..2] + code[2..];
    }
    LostBytes(mid, at, code);
  }

  /** In general it costs nothing exactly when the call left the code itself at the site. */
  lemma {:induction false} LostBytes(mid: Space, at: int, code: seq<Byte>)
    requires |code| == 8 && AllIn(mid, at, 8)
    ensures AfterCall(mid, at, code, false) == AfterCall(mid, at, code, true) <==> BytesAt(mid, at, 8) == code
  {
    var left, back := BytesAt(mid, at, 8), AfterCall(mid, at, code, true);
    if left == code {
      forall a | a in mid.cells ensures back.cells[a] == mid.cells[a] {
        if In(a, at, 8) {
          assert left[a - at] == mid.cells[at + (a - at)].value;
        }
      }
      assert back.cells.Keys == mid.cells.Keys;
      assert back.cells == mid.cells;
    } else {
      var k :| 0 <= k < 8 && left[k] != code[k];
      assert In(at + k, at, 8);
      assert back.cells[at + k].value == code[k] && mid.cells[at + k].value == left[k];
    }
  }

  lemma {:induction false} LostInProtect(s: Space, at: int, start: nat, size: nat, prot: nat)
    requires AllIn(s, at, 8)
    ensures var code, mid := BytesAt(s, at, 8), Protect(Planted(s, at), start, size, prot);
      AfterCall(mid, at, code, false) == AfterCall(mid, at, code, true) <==> code[..2] == OPCODE
  {
    var mid := Protect(Planted(s, at), start, size, prot);
    assert BytesAt(mid, at, 8) == BytesAt(Planted(s, at), at, 8);
    LostInstruction(s, at, mid);
  }

  lemma {:induction false} LostInMove(s: Space, at: int, from: nat, size: nat, to: nat)
    requires AllIn(s, at, 8) && AllIn(Planted(s, at), from, size) && Apart(from, size, to, size)
    requires Apart(at, 8, from, size) && Apart(at, 8, to, size)
    ensures var code, mid := BytesAt(s, at, 8), Move(Planted(s, at), from, size, to);
      AfterCall(mid, at, code, false) == AfterCall(mid, at, code, true) <==> code[..2] == OPCODE
  {
    hide Move, Planted, BytesAt;
    PlantReady(s, at);
    MoveSameCode(Planted(s, at), at, from, size, to);
    LostInstruction(s, at, Move(Planted(s, at), from, size, to));
  }

  /** The same for a mapping call, which may cover the site or a part of it with zeros. */
  lemma {:induction false} LostInMap(s: Space, at: int, start: nat, size: nat, prot: nat)
    requires AllIn(s, at, 8)
    ensures var code, mid := BytesAt(s, at, 8), MapFixed(Planted(s, at), start, size, prot);
      AfterCall(mid, at, code, false) == AfterCall(mid, at, code, true) <==>
      forall k :: 0 <= k < 8 ==> code[k] == (if In(at + k, start, size) then 0 else if k < 2 then OPCODE[k] else code[k])
  {
    var code, mid := BytesAt(s, at, 8), MapFixed(Planted(s, at), start, size, prot);
    hide Punched;
    assert AllIn(mid, at, 8) by {
      forall a | In(a, at, 8) ensures a in mid.cells { PlantedAt(s, at, a); }
    }
    var left := BytesAt(mid, at, 8);
    forall k | 0 <= k < 8
      ensures left[k] == (if In(at + k, start, size) then 0 else if k < 2 then OPCODE[k] else code[k])
    {
      PlantedAt(s, at, at + k);
    }
    LostBytes(mid, at, code);
  }

  function MmapCall(v: Vma): Report {
    Call(SYS_MMAP, v.start, v.size, PROT_RWX, MAP_PRIVATE_ANONYMOUS_FIXED, TWO_64 - 1, 0)
  }

  function MprotectCall(v: Vma): Report {
    Call(SYS_MPROTECT, v.start, v.size, v.prot, 0, 0, 0)
  }

  function MremapCall(from: nat, size: nat, newSize: nat, to: nat): Report {
    Call(SYS_MREMAP, from, size, newSize, MREMAP_MAYMOVE_FIXED, to, 0)
  }

  function CloexecCall(fd: nat): Report {
    Call(SYS_FCNTL, fd, F_SETFD, FD_CLOEXEC, 0, 0, 0)
  }

  /** The calls as the kernel's numbers for x86-64 name them, and the error range of their results. */
  lemma {:induction false} CallNumbers(v: Vma, from: nat, size: nat, newSize: nat, to: nat, fd: nat, result: U64)
    ensures MmapCall(v) == Call(9, v.start, v.size, 7, 0x32, 0xFFFF_FFFF_FFFF_FFFF, 0)
    ensures MprotectCall(v) == Call(10, v.start, v.size, v.prot, 0, 0, 0)
    ensures MremapCall(from, size, newSize, to) == Call(25, from, size, newSize, 3, to, 0)
    ensures CloexecCall(fd) == Call(72, fd, 2, 1, 0, 0, 0)
    ensures SyscallFailed(result) <==> 0xFFFF_FFFF_FFFF_F001 <= result
    ensures OPCODE == [0x0F, 0x05]
  {
  }

  /** Maps an area afresh with every right, whatever was there before; if the call was not made, nothing happens. */
  method InjectMmap(c: Tracee, vma: Vma) returns (ok: bool, ghost ran: bool)
    requires c.Live()
    modifies c`space, c`regs, c`fds, c`lost, c`reported, c`cut, c`phase, c`endSeen, c`failed
    ensures c.Followed() && (ok ==> c.Live()) && (old(c.lost) ==> c.lost) && old(c.cut) <= c.cut
    ensures c.failed == (old(c.failed) || !ok)
    ensures ok && ran ==> Executable(old(c.space), old(c.regs[RIP])) && c.cut == old(c.cut)
    ensures ok && !ran ==> !Executable(old(c.space), old(c.regs[RIP])) || c.cut == old(c.cut) + {SYS_MMAP}
    ensures ok ==> c.reported == old(c.reported) + [MmapCall(vma)]
    ensures ok ==> c.regs == old(c.regs) && c.fds == old(c.fds)
    ensures ok && ran ==>
      && Remapped(old(c.space), c.space, vma.start, RoundUp(vma.size), old(c.regs[RIP]), c.lost)
      && c.space.lines == Punched(old(c.space.lines), vma.start, RoundUp(vma.size))
    ensures ok && !ran ==> Left(old(c.space), c.space, old(c.regs[RIP]), c.lost)
  {
    var result;
    ghost var mid, putBack;
    ghost var site, s := c.regs[RIP], c.space;
    ok, result, mid, putBack, ran := InjectSyscall(c, SYS_MMAP, vma.start, vma.size, PROT_RWX, MAP_PRIVATE_ANONYMOUS_FIXED, TWO_64 - 1, 0);
    if ok && SyscallFailed(result) {
      ok := false;
    }
    if ok {
      MapFrame(s, site, vma.start, RoundUp(vma.size), putBack);
      PutBackFrame(s, site, putBack);
      hide AfterCall, Planted, MapFixed, Punched, Executable;
      if ran {
        RemappedLost(s, c.space, vma.start, RoundUp(vma.size), site, !putBack, c.lost);
      }
    }
  }

  lemma {:induction false} RemappedLost(s: Space, s': Space, start: int, size: nat, at: int, lost: bool, lost': bool)
    requires Remapped(s, s', start, size, at, lost) && (lost ==> lost')
    ensures Remapped(s, s', start, size, at, lost')
  {
  }

  method InjectMprotect(c: Tracee, vma: Vma) returns (ok: bool, ghost ran: bool)
    requires c.Live()
    modifies c`space, c`regs, c`fds, c`lost, c`reported, c`cut, c`phase, c`endSeen, c`failed
    ensures c.Followed() && (ok ==> c.Live()) && (old(c.lost) ==> c.lost) && old(c.cut) <= c.cut
    ensures c.failed == (old(c.failed) || !ok)
    ensures ok && ran ==> Executable(old(c.space), old(c.regs[RIP])) && c.cut == old(c.cut)
    ensures ok && !ran ==> !Executable(old(c.space), old(c.regs[RIP])) || c.cut == old(c.cut) + {SYS_MPROTECT}
    ensures ok ==> c.reported == old(c.reported) + [MprotectCall(vma)]
    ensures ok ==> c.regs == old(c.regs) && c.fds == old(c.fds)
    ensures ok && ran ==>
      Reprotected(old(c.space), c.space, vma.start, RoundUp(vma.size), vma.prot, old(c.regs[RIP]), c.lost)
    ensures ok && !ran ==> Left(old(c.space), c.space, old(c.regs[RIP]), c.lost)
  {
    var result;
    ghost var mid, putBack;
    ghost var site, s := c.regs[RIP], c.space;
    ok, result, mid, putBack, ran := InjectSyscall(c, SYS_MPROTECT, vma.start, vma.size, vma.prot, 0, 0, 0);
    if ok && SyscallFailed(result) {
      ok := false;
    }
    if ok {
      ProtectFrame(s, site, vma.start, RoundUp(vma.size), vma.prot, putBack);
      PutBackFrame(s, site, putBack);
      hide AfterCall, Planted, Protect, Executable;
      if ran {
        ReprotectedLost(s, c.space, vma.start, RoundUp(vma.size), vma.prot, site, !putBack, c.lost);
      }
    }
  }

  lemma {:induction false} ReprotectedLost(s: Space, s': Space, start: int, size: nat, prot: nat, at: int, lost: bool, lost': bool)
    requires Reprotected(s, s', start, size, prot, at, lost) && (lost ==> lost')
    ensures Reprotected(s, s', start, size, prot, at, lost')
  {
  }

  /** Moves a kernel mapping, with the site clear of where it was and where it goes. */
  method InjectMremap(c: Tracee, from: U64, size: U64, newSize: U64, to: U64) returns (ok: bool, ghost ran: bool)
    requires c.Live()
    modifies c`space, c`regs, c`fds, c`lost, c`reported, c`cut, c`phase, c`endSeen, c`failed
    ensures c.Followed() && (ok ==> c.Live()) && (old(c.lost) ==> c.lost) && old(c.cut) <= c.cut
    ensures c.failed == (old(c.failed) || !ok)
    ensures ok && ran ==> Executable(old(c.space), old(c.regs[RIP])) && c.cut == old(c.cut)
    ensures ok && !ran ==> !Executable(old(c.space), old(c.regs[RIP])) || c.cut == old(c.cut) + {SYS_MREMAP}
    ensures ok ==> c.reported == old(c.reported) + [MremapCall(from, size, newSize, to)]
    ensures ok ==> c.regs == old(c.regs) && c.fds == old(c.fds)
    ensures var site, s := old(c.regs[RIP]), old(c.space);
      ok && ran && size == newSize
      && Apart(site, 8, from, RoundUp(size)) && Apart(site, 8, to, RoundUp(size)) ==>
      && AllIn(s, from, RoundUp(size)) && Apart(from, RoundUp(size), to, RoundUp(size))
      && Left(Move(s, from, RoundUp(size), to), c.space, site, c.lost)
    ensures ok && !ran ==> Left(old(c.space), c.space, old(c.regs[RIP]), c.lost)
  {
    hide Move, Planted, Executable, BytesAt;
    var result;
    ghost var mid, putBack;
    ghost var site, s := c.regs[RIP], c.space;
    ok, result, mid, putBack, ran := InjectSyscall(c, SYS_MREMAP, from, size, newSize, MREMAP_MAYMOVE_FIXED, to, 0);
    if ok && SyscallFailed(result) {
      ok := false;
    }
    if ok {
      PutBackFrame(s, site, putBack);
      if ran && size == newSize && Apart(site, 8, from, RoundUp(size)) && Apart(site, 8, to, RoundUp(size)) {
        MoveFrame(s, site, from, RoundUp(size), to, putBack);
      }
    }
  }

  /** The effect on the descriptor does not depend on whether the code went back. */
  method InjectSetCloexec(c: Tracee, fd: I32) returns (ok: bool, ghost ran: bool)
    requires c.Live() && fd >= 0
    modifies c`space, c`regs, c`fds, c`lost, c`reported, c`cut, c`phase, c`endSeen, c`failed
    ensures c.Followed() && (ok ==> c.Live()) && (old(c.lost) ==> c.lost) && old(c.cut) <= c.cut
    ensures c.failed == (old(c.failed) || !ok)
    ensures ok && ran ==> Executable(old(c.space), old(c.regs[RIP])) && c.cut == old(c.cut)
    ensures ok && !ran ==> !Executable(old(c.space), old(c.regs[RIP])) || c.cut == old(c.cut) + {SYS_FCNTL}
    ensures ok ==> c.reported == old(c.reported) + [CloexecCall(fd)]
    ensures ok ==> c.regs == old(c.regs)
    ensures ok && ran ==> fd in old(c.fds) && c.fds == old(c.fds)[fd as int := old(c.fds)[fd].(cloexec := true)]
    ensures ok && !ran ==> c.fds == old(c.fds)
    ensures ok ==> Left(old(c.space), c.space, old(c.regs[RIP]), c.lost)
  {
    hide Planted, Overlay, MapFixed, Protect, Move, Executable;
    var result;
    ghost var mid, putBack;
    ghost var site, s := c.regs[RIP], c.space;
    ok, result, mid, putBack, ran := InjectSyscall(c, SYS_FCNTL, fd, F_SETFD, FD_CLOEXEC, 0, 0, 0);
    if ok && SyscallFailed(result) {
      ok := false;
    }
    if ok {
      PutBackFrame(s, site, putBack);
    }
  }
}
