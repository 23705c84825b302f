/**
 The process a restore builds, as the system calls of the engine see it: its
 memory, registers and descriptors. Every call may fail; `:= *` chooses.
 */
module Child {
  import opened Bytes
  import opened DumpFormat
  import opened AddressSpace

  datatype Slot = Slot(file: nat, cloexec: bool)

  /** An open file: descriptors that share one share its position. */
  datatype OpenFile = OpenFile(path: seq<Byte>, flags: nat, position: nat)

  datatype Phase = Forked | Stopped | Exited | Signaled | Running | Released | Killed

  // positions in the register file
  const R10: nat := 7
  const R9: nat := 8
  const R8: nat := 9
  const RAX: nat := 10
  const RCX: nat := 11
  const RDX: nat := 12
  const RSI: nat := 13
  const RDI: nat := 14
  const R11: nat := 6
  const RIP: nat := 16

  const SYS_MMAP: nat := 9
  const SYS_MPROTECT: nat := 10
  const SYS_MREMAP: nat := 25
  const SYS_FCNTL: nat := 72

  const MAP_PRIVATE_ANONYMOUS_FIXED: nat := 0x32
  const MREMAP_MAYMOVE_FIXED: nat := 3
  const F_SETFD: nat := 2
  const FD_CLOEXEC: nat := 1

  /** The kernel reports failures as a small negative number. */
  predicate SyscallFailed(result: U64) {
    result >= TWO_64 - 4095
  }

  /**
   What a successful call did, from its number and arguments in their registers.
   Only the forms the engine uses are described; of any other nothing is known.
   */
  ghost predicate Performed(regs: seq<U64>, s: Space, s': Space, fds: map<int, Slot>, fds': map<int, Slot>)
    requires |regs| == REGS_COUNT
  {
    var number := regs[RAX];
    if number == SYS_MMAP && regs[R10] == MAP_PRIVATE_ANONYMOUS_FIXED then
      s' == MapFixed(s, regs[RDI], RoundUp(regs[RSI]), regs[RDX]) && fds' == fds
    else if number == SYS_MPROTECT then
      AllIn(s, regs[RDI], RoundUp(regs[RSI])) && s' == Protect(s, regs[RDI], RoundUp(regs[RSI]), regs[RDX]) && fds' == fds
    else if number == SYS_MREMAP then
      var from, size, to := regs[RDI], RoundUp(regs[RSI]), regs[R8];
      && fds' == fds
      && (regs[R10] == MREMAP_MAYMOVE_FIXED && regs[RSI] == regs[RDX] ==>
            AllIn(s, from, size) && Apart(from, size, to, size) && s' == Move(s, from, size, to))
    else if number == SYS_FCNTL && regs[RSI] == F_SETFD then
      s' == s && regs[RDI] in fds && fds' == fds[regs[RDI] as int := fds[regs[RDI]].(cloexec := HasBit(regs[RDX], FD_CLOEXEC))]
    else true
  }

  /** What opening does to the contents of the files: the flags may create one, or empty it. */
  function Opened(disk: map<seq<Byte>, seq<Byte>>, path: seq<Byte>, flags: U32): map<seq<Byte>, seq<Byte>> {
    if path in disk && HasBit(flags, O_TRUNC) then disk[path := []]
    else if path !in disk && HasBit(flags, O_CREAT) then disk[path := []]
    else disk
  }

  /** No call of this number was cut off. */
  predicate Uncut(cut: set<nat>, number: nat) {
    number !in cut
  }

  /** The calls of this number were made: the site may be executed, and none was cut off. */
  predicate Made(s: Space, at: int, cut: set<nat>, number: nat) {
    Executable(s, at) && number !in cut
  }

  /**
   Something the engine saw succeed: an injected call with its arguments, a
   lookup in the mapping list, a write through the memory file.
   */
  datatype Report =
    | Call(number: nat, a1: nat, a2: nat, a3: nat, a4: nat, a5: nat, a6: nat)
    | Found(line: Line)
    | Wrote(at: int, bytes: seq<Byte>)

  /**
   How the engine parted with a child, and whether the kernel did as it was
   told. A stray kill is one sent to a process that had already been reaped.
   */
  datatype Parting = DetachTried(ok: bool) | KillTried(ok: bool) | StrayKill

  /**
   How a single step came to its stop: after the instruction, at a fault of it,
   at a signal before it ran, or with the end of the child.
   */
  datatype StepEnd = Stepped | Faulted | CutOff | Ended

  class Tracee {
    var space: Space
    var regs: seq<U64>
    var xstate: seq<Byte>
    var fds: map<int, Slot>
    var files: seq<OpenFile>
    var disk: map<seq<Byte>, seq<Byte>> // the contents of the files, by path
    var phase: Phase
    ghost var failed: bool // a call whose result is looked at did not work, or the child ended under one
    ghost var reported: seq<Report> // what reported success, in order
    ghost var lost: bool // the instruction under an injected call could not be put back
    ghost var xstateSet: bool // the last step of a rebuild succeeded
    ghost var cut: set<nat> // the numbers of injected calls that a signal kept from running
    ghost var endSeen: bool // the wait for a single step reported the end of the child
    ghost var untraced: bool // the program was started without being traced
    ghost var partings: seq<Parting>

    /** The child is stopped, or a wait of the rebuild has reported its end. */
    ghost predicate Followed()
      reads this
    {
      |regs| == REGS_COUNT && if endSeen then phase == Signaled else phase == Stopped
    }

    ghost predicate Live()
      reads this
    {
      Followed() && !endSeen
    }

    // ----- tracing -----

    /** Asks for the program to be traced from its start. */
    method AskForTrace() returns (ok: bool) {
      ok := *;
    }

    /** A call that may fail and changes nothing. */
    method Try() returns (ok: bool)
      modifies `failed
      ensures failed == (old(failed) || !ok)
    {
      ok := *;
      failed := failed || !ok;
    }

    method GetRegs() returns (ok: bool, r: seq<U64>)
      modifies `failed
      ensures ok ==> r == regs && phase == Stopped
      ensures failed == (old(failed) || (!ok && phase == Stopped))
    {
      ok := *;
      failed := failed || (!ok && phase == Stopped);
      ok := ok && phase == Stopped;
      r := regs;
    }

    method SetRegs(r: seq<U64>) returns (ok: bool)
      modifies `regs, `failed
      ensures regs == if ok then r else old(regs)
      ensures failed == (old(failed) || !ok)
    {
      ok := *;
      failed := failed || !ok;
      if ok {
        regs := r;
      }
    }

    method SetXstate(x: seq<Byte>) returns (ok: bool)
      modifies `xstate, `xstateSet, `failed
      ensures xstate == if ok then x else old(xstate)
      ensures failed == (old(failed) || !ok)
      ensures xstateSet == (old(xstateSet) || ok)
    {
      ok := *;
      failed := failed || !ok;
      if ok {
        xstate := x;
        xstateSet := true;
      }
    }

    /** Reads eight bytes of code as a little-endian word. */
    method Peek(at: U64) returns (ok: bool, word: U64)
      modifies `failed
      ensures failed == (old(failed) || !ok)
      ensures ok ==> AllIn(space, at, 8) && word == UnLe(BytesAt(space, at, 8))
    {
      ok := *;
      word := 0;
      if ok && AllIn(space, at, 8) {
        PlantedBytes(BytesAt(space, at, 8));
        word := UnLe(BytesAt(space, at, 8));
      } else {
        ok := false;
        failed := true;
      }
    }

    /**
     Writes eight bytes, whatever their protection. With `back` they are the code
     going back under an injected call, and whether that works is not looked at.
     */
    method Poke(at: U64, word: U64, ghost back: bool) returns (ok: bool)
      modifies `space, `failed, `lost
      ensures failed == (old(failed) || (!back && !ok)) && lost == (old(lost) || (back && !ok))
      ensures ok ==> AllIn(old(space), at, 8) && space == Overlay(old(space), at, Le(word, 8))
      ensures !ok ==> space == old(space)
    {
      ok := *;
      ok := ok && AllIn(space, at, 8);
      failed, lost := failed || (!back && !ok), lost || (back && !ok);
      if ok {
        space := Overlay(space, at, Le(word, 8));
      }
    }

    /**
     Runs the one system call instruction at rip, unless something keeps it from
     running: a fault where it may not be executed, a signal that stops the
     child first, or the end of the child. Then registers stay as they were set.
     A call that fails may have done any part of its work on memory.
     */
    method Step() returns (ok: bool, end: StepEnd)
      requires |regs| == REGS_COUNT
      requires AllIn(space, regs[RIP], 8) && BytesAt(space, regs[RIP], 8)[..2] == OPCODE
      modifies `space, `regs, `fds, `failed, `cut
      ensures cut == if ok && end == CutOff then old(cut) + {old(regs[RAX])} else old(cut)
      ensures |regs| == REGS_COUNT && failed == (old(failed) || !ok || (end == Stepped && SyscallFailed(regs[RAX])))
      ensures ok && end == Stepped ==> Executable(old(space), old(regs[RIP]))
      ensures ok && end == Faulted ==> !Executable(old(space), old(regs[RIP]))
      ensures ok && end != Stepped ==> regs == old(regs) && space == old(space) && fds == old(fds)
      ensures ok && end == Stepped && !SyscallFailed(regs[RAX]) ==>
        Performed(old(regs), old(space), space, old(fds), fds)
      ensures ok && end == Stepped && SyscallFailed(regs[RAX]) ==> fds == old(fds)
    {
      ok := *;
      failed := failed || !ok;
      var signal, killed := *, *;
      end := if killed then Ended else if signal then CutOff else if !Executable(space, regs[RIP]) then Faulted else Stepped;
      if ok && end == CutOff {
        cut := cut + {regs[RAX]};
      }
      if !ok || killed || signal || !Executable(space, regs[RIP]) {
        end := if !ok then CutOff else end;
        return;
      }
      var works := *;
      var result: U64 := *;
      var r: seq<U64> := regs;
      if works && r[RAX] == SYS_MMAP && r[R10] == MAP_PRIVATE_ANONYMOUS_FIXED {
        space := MapFixed(space, r[RDI], RoundUp(r[RSI]), r[RDX]);
      } else if works && r[RAX] == SYS_MPROTECT && AllIn(space, r[RDI], RoundUp(r[RSI])) {
        space := Protect(space, r[RDI], RoundUp(r[RSI]), r[RDX]);
      } else if works && r[RAX] == SYS_MREMAP && r[R10] == MREMAP_MAYMOVE_FIXED && r[RSI] == r[RDX]
                && AllIn(space, r[RDI], RoundUp(r[RSI])) && Apart(r[RDI], RoundUp(r[RSI]), r[R8], RoundUp(r[RSI])) {
        space := Move(space, r[RDI], RoundUp(r[RSI]), r[R8]);
      } else if works && r[RAX] == SYS_FCNTL && r[RSI] == F_SETFD && r[RDI] in fds {
        fds := fds[r[RDI] as int := fds[r[RDI]].(cloexec := HasBit(r[RDX], FD_CLOEXEC))];
      } else {
        works := false;
        space := *;
      }
      if works == SyscallFailed(result) {
        result := if works then 0 else TWO_64 - 1;
      }
      var rcx: U64, r11: U64 := *, *;
      var after: U64 := Add64(r[RIP], 2);
      r := r[RAX := result];
      r := r[RCX := rcx];
      r := r[R11 := r11];
      r := r[RIP := after];
      regs := r;
      failed := failed || SyscallFailed(result);
    }

    /**
     Waits for the single step, which came to `end`. The engine learns only
     whether the wait worked; if the child has ended, this is what reaps it.
     */
    method WaitStep(end: StepEnd) returns (ok: bool)
      modifies `phase, `endSeen, `failed
      ensures failed == (old(failed) || !ok || end == Ended)
      ensures phase == if ok && end == Ended then Signaled else old(phase)
      ensures endSeen == (old(endSeen) || (ok && end == Ended))
    {
      ok := *;
      failed := failed || !ok || end == Ended;
      if ok && end == Ended {
        phase, endSeen := Signaled, true;
      }
    }

    /** Writes through the memory file; less than everything may be written. */
    method WriteMemory(at: nat, bytes: seq<Byte>) returns (n: int)
      modifies `space, `reported, `failed
      ensures failed == (old(failed) || n != |bytes|)
      ensures n == |bytes| ==> AllIn(old(space), at, |bytes|) && space == Overlay(old(space), at, bytes)
      ensures n == |bytes| ==> reported == old(reported) + [Wrote(at, bytes)]
    {
      n := *;
      if n != |bytes| || !AllIn(space, at, |bytes|) {
        n := -1;
        space := *;
        failed := true;
        return;
      }
      space := Overlay(space, at, bytes);
      reported := reported + [Wrote(at, bytes)];
    }

    /** Wakes the child up; from here on it runs on its own. It fails when the child has been killed meanwhile. */
    method Detach() returns (ok: bool)
      requires phase == Stopped
      modifies `phase, `partings
      ensures phase == if ok then Released else Signaled
      ensures partings == old(partings) + [DetachTried(ok)]
    {
      ok := *;
      phase := if ok then Released else Signaled;
      partings := partings + [DetachTried(ok)];
    }

    /** Sends the kill. A process that ended and was reaped is not there to get it. */
    method Kill() returns (ok: bool)
      modifies `phase, `partings
      ensures old(phase) in {Stopped, Running} ==>
        phase == (if ok then Killed else old(phase)) && partings == old(partings) + [KillTried(ok)]
      ensures old(phase) !in {Stopped, Running} ==> phase == old(phase) && partings == old(partings) + [StrayKill]
    {
      ok := *;
      if phase in {Stopped, Running} {
        phase := if ok then Killed else phase;
        partings := partings + [KillTried(ok)];
      } else {
        partings := partings + [StrayKill];
      }
    }

    // ----- descriptors, before the exec -----

    method CloseRange(from: int) returns (ok: bool)
      modifies `fds, `failed
      ensures ok ==> fds == map n | n in old(fds) && n < from :: old(fds)[n]
      ensures failed == (old(failed) || !ok)
    {
      ok := *;
      failed := failed || !ok;
      fds := if ok then map n | n in fds && n < from :: fds[n] else fds;
    }

    /** The lowest free number. */
    method LowestFree() returns (n: nat)
      ensures n !in fds && forall k :: 0 <= k < n ==> k in fds
    {
      n := 0;
      while n in fds
        invariant forall k :: 0 <= k < n ==> k in fds
        decreases |fds.Keys - Range(0, n)|
      {
        assert fds.Keys - Range(0, n + 1) == (fds.Keys - Range(0, n)) - {n};
        n := n + 1;
      }
    }

    /** Opens a file on the lowest free number, or gives -1. The flags may ask for it to be created or emptied. */
    method Open(path: seq<Byte>, flags: U32) returns (fd: int)
      modifies `fds, `files, `failed, `disk
      ensures fd == -1 || (fd >= 0 && fd !in old(fds) && forall k :: 0 <= k < fd ==> k in old(fds))
      ensures fd >= 0 ==> fds == old(fds)[fd := Slot(|old(files)|, HasBit(flags, O_CLOEXEC))]
      ensures fd >= 0 ==> files == old(files) + [OpenFile(path, ClearBit(flags, O_CLOEXEC), 0)]
      ensures disk == Opened(old(disk), path, flags) || (fd == -1 && disk == old(disk))
      ensures failed == (old(failed) || fd == -1)
    {
      var ok, touched := *, *;
      if ok || touched {
        disk := Opened(disk, path, flags);
      }
      if !ok {
        failed := true;
        return -1;
      }
      fd := LowestFree();
      fds := fds[fd := Slot(|files|, HasBit(flags, O_CLOEXEC))];
      files := files + [OpenFile(path, ClearBit(flags, O_CLOEXEC), 0)];
    }

    /** A negative position is refused. */
    method Seek(fd: int, position: I64) returns (ok: bool)
      requires fd in fds && fds[fd].file < |files|
      modifies `files, `failed
      ensures failed == (old(failed) || (!ok && position >= 0))
      ensures ok ==> position >= 0 && files == old(files)[fds[fd].file := old(files)[fds[fd].file].(position := position)]
    {
      ok := *;
      failed := failed || (!ok && position >= 0);
      ok := ok && position >= 0;
      if ok {
        files := files[fds[fd].file := files[fds[fd].file].(position := position)];
      }
    }

    /** Makes `to` another name of the open file behind `from`. */
    method Dup2(from: int, to: int) returns (ok: bool)
      modifies `fds, `failed
      ensures failed == (old(failed) || (!ok && from in old(fds)))
      ensures ok ==> from in old(fds)
      ensures ok ==> fds == if from == to then old(fds) else old(fds)[to := Slot(old(fds)[from].file, false)]
    {
      ok := *;
      failed := failed || (!ok && from in fds);
      ok := ok && from in fds;
      if ok && from != to {
        fds := fds[to := Slot(fds[from].file, false)];
      }
    }

    /** The number is free afterwards, whatever the call returns. */
    method Close(fd: int)
      modifies `fds
      ensures fds == old(fds) - {fd}
    {
      fds := fds - {fd};
    }

    /**
     The first wait: the child is seen to stop, to have ended, or neither. An
     untraced program does not stop before its end.
     */
    method AwaitStop(traced: bool)
      modifies `phase, `failed
      ensures phase in {Stopped, Exited, Signaled, Running} && (!traced ==> phase in {Exited, Signaled})
      ensures failed == (old(failed) || phase != Stopped)
    {
      phase := *;
      if !traced && phase != Signaled {
        phase := Exited;
      }
      if phase !in {Stopped, Exited, Signaled, Running} {
        phase := Running;
      }
      failed := failed || phase != Stopped;
    }

    /** Starts the program: descriptors marked so are closed, memory and registers are new. Untraced, it just runs. */
    method Exec(space': Space, regs': seq<U64>, traced: bool) returns (ok: bool)
      modifies `fds, `space, `regs, `untraced, `failed
      ensures failed == (old(failed) || !ok)
      ensures untraced == (old(untraced) || (ok && !traced))
      ensures ok ==> fds == map n | n in old(fds) && !old(fds)[n].cloexec :: old(fds)[n]
      ensures ok ==> space == space' && regs == regs'
    {
      ok := *;
      failed := failed || !ok;
      if ok {
        fds := map n | n in fds && !fds[n].cloexec :: fds[n];
        space, regs := space', regs';
        untraced := untraced || !traced;
      }
    }
  }
}
