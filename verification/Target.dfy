/**
 The stopped process being dumped and the snapshot file being written, as the
 system calls of the dump see them. Every call may fail; `:= *` chooses.
 */
module Target {
  import opened Bytes
  import opened Maps
  import opened Fds

  /** A process as it stands while it is stopped. `fileOf` names the open file behind each descriptor. */
  datatype Image = Image(
    regs: seq<U64>,
    xstate: seq<Byte>,
    exe: seq<Byte>,
    lines: seq<RawLine>,
    mem: map<int, Byte>,
    fds: seq<FdView>,
    fileOf: map<int, nat>)

  datatype Event =
    | Seized(ok: bool)
    | Interrupted(ok: bool)
    | StopSeen(ok: bool)
    | Flushed(ok: bool)
    | Synced(ok: bool)
    | Closed(ok: bool)
    | KillTried(ok: bool)
    | DetachTried(ok: bool)

  function MemAt(mem: map<int, Byte>, address: int): Byte {
    if address in mem then mem[address] else 0
  }

  const BUFFER: nat := 4096

  predicate Mapped(mem: map<int, Byte>, start: int, size: nat) {
    forall a :: start <= a < start + size ==> a in mem
  }

  function MemBytes(mem: map<int, Byte>, start: int, size: nat): (bytes: seq<Byte>)
    ensures |bytes| == size
    ensures forall k :: 0 <= k < size ==> bytes[k] == MemAt(mem, start + k)
  {
    if size == 0 then [] else MemBytes(mem, start, size - 1) + [MemAt(mem, start + size - 1)]
  }

  lemma {:induction false} MemBytesSplit(mem: map<int, Byte>, start: int, size: nat, more: nat)
    ensures MemBytes(mem, start, size + more) == MemBytes(mem, start, size) + MemBytes(mem, start + size, more)
  {
  }

  class Host {
    const image: Image
    var events: seq<Event>
    var stream: seq<Byte>  // what was written to the stream
    var cache: seq<Byte>   // what was flushed out of the process
    var disk: seq<Byte>    // what is on the disk
    var kcmpBroken: bool
    var interruptions: nat // how many reads may still be interrupted by a signal
    ghost var denied: bool // a call failed

    // a walk over the descriptor directory
    var answers: seq<FdView> // what the kernel said about each entry
    var seen: seq<FdView> // the entries, without the looks at paths that were lost
    ghost var brokeOff: bool // reading the directory failed
    ghost var answerLost: bool // the kernel failed to say something about an entry

    /** The process as far as its descriptors were seen. */
    ghost function Seen(): Image
      reads `seen
    {
      image.(fds := seen)
    }

    /** How what was seen compares with what there is. */
    ghost predicate WalkOk()
      reads `seen, `answers, `answerLost
    {
      && Skimmed(image.fds, seen) && Glimpse(image.fds, answers) && |seen| == |answers|
      && (!answerLost ==> seen == image.fds[..|seen|] && answers == image.fds[..|seen|])
    }

    /** The walk has come to the end of the directory, as far as it could know. */
    ghost predicate WalkDone()
      reads `seen, `brokeOff
    {
      brokeOff || |seen| == |image.fds|
    }

    /** Nothing about the descriptors was missed. */
    ghost predicate SawAll()
      reads `brokeOff, `answerLost
    {
      !brokeOff && !answerLost
    }

    /** A call that may fail and changes nothing. */
    method Try() returns (ok: bool)
      modifies `denied
      ensures denied == (old(denied) || !ok)
    {
      ok := *;
      denied := denied || !ok;
    }

    /** The general registers; a failed call leaves something else. */
    method ReadRegs() returns (ok: bool, regs: seq<U64>)
      modifies `denied
      ensures ok ==> regs == image.regs
      ensures denied == (old(denied) || !ok)
    {
      ok, regs := *, *;
      denied := denied || !ok;
      regs := if ok then image.regs else regs;
    }

    method ReadXstate() returns (ok: bool, xstate: seq<Byte>)
      modifies `denied
      ensures ok ==> xstate == image.xstate
      ensures denied == (old(denied) || !ok)
    {
      ok, xstate := *, *;
      denied := denied || !ok;
      xstate := if ok then image.xstate else xstate;
    }

    method ReadLink() returns (ok: bool, exe: seq<Byte>)
      modifies `denied
      ensures ok ==> exe == image.exe
      ensures denied == (old(denied) || !ok)
    {
      ok, exe := *, *;
      denied := denied || !ok;
      exe := if ok then image.exe else exe;
    }

    /** Opens a mapping list that has these lines; there are none to read when that fails. */
    method OpenListing(lines: seq<RawLine>) returns (ok: bool, listing: seq<RawLine>)
      modifies `denied
      ensures listing == if ok then lines else []
      ensures denied == (old(denied) || !ok)
    {
      ok := *;
      denied := denied || !ok;
      listing := if ok then lines else [];
    }

    /** How many lines are read before the end of the list or an error, and whether it was the end. */
    method ReadListing(listing: seq<RawLine>) returns (read: nat, whole: bool)
      modifies `denied
      ensures read <= |listing| && (whole ==> read == |listing|)
      ensures denied == (old(denied) || !whole)
    {
      read, whole := *, *;
      denied := denied || !whole;
      read := if whole || read > |listing| then |listing| else read;
    }

    method OpenFds() returns (ok: bool)
      modifies `denied, `seen, `answers, `brokeOff, `answerLost
      ensures WalkOk() && seen == [] && !answerLost && brokeOff == !ok && denied == (old(denied) || !ok)
    {
      ok := *;
      seen, answers, brokeOff, answerLost := [], [], !ok, false;
      denied := denied || !ok;
    }

    /**
     Reads the next entry of the open descriptor directory and asks the kernel about
     it. An error of the reading looks like the end, and any answer may be lost.
     */
    method NextFd() returns (more: bool, v: FdView)
      requires WalkOk() && !brokeOff
      modifies `seen, `answers, `brokeOff, `answerLost
      ensures WalkOk() && (more ==> !brokeOff) && (old(answerLost) ==> answerLost)
      ensures more ==> |old(seen)| < |image.fds| && Blurred(image.fds[|old(seen)|], v)
      ensures more ==> seen == old(seen) + [Unnoticed(image.fds[|old(seen)|], v)] && answers == old(answers) + [v]
      ensures more ==> v == image.fds[|old(seen)|] || answerLost
      ensures !more ==> seen == old(seen) && answers == old(answers) && WalkDone()
    {
      more, v := *, FdView(0, None, None, None, None);
      if !more || |seen| == |image.fds| {
        brokeOff := brokeOff || |seen| < |image.fds|;
        more := false;
        return;
      }
      var whole := image.fds[|seen|];
      v := Ask(whole);
      answerLost := answerLost || v != whole;
      assert image.fds[..|seen| + 1] == image.fds[..|seen|] + [whole];
      seen, answers := seen + [Unnoticed(whole, v)], answers + [v];
    }

    method Seize() returns (ok: bool)
      modifies `events, `denied
      ensures events == old(events) + [Seized(ok)] && denied == (old(denied) || !ok)
    {
      ok := *;
      denied := denied || !ok;
      events := events + [Seized(ok)];
    }

    method Interrupt() returns (ok: bool)
      modifies `events, `denied
      ensures events == old(events) + [Interrupted(ok)] && denied == (old(denied) || !ok)
    {
      ok := *;
      denied := denied || !ok;
      events := events + [Interrupted(ok)];
    }

    /** Waits for the target; `ok` when the wait succeeded and reports a stop. */
    method WaitForStop() returns (ok: bool)
      modifies `events, `denied
      ensures events == old(events) + [StopSeen(ok)] && denied == (old(denied) || !ok)
    {
      ok := *;
      denied := denied || !ok;
      events := events + [StopSeen(ok)];
    }

    method Kill() returns (ok: bool)
      modifies `events, `denied
      ensures events == old(events) + [KillTried(ok)] && denied == (old(denied) || !ok)
    {
      ok := *;
      denied := denied || !ok;
      events := events + [KillTried(ok)];
    }

    method Detach() returns (ok: bool)
      modifies `events, `denied
      ensures events == old(events) + [DetachTried(ok)] && denied == (old(denied) || !ok)
    {
      ok := *;
      denied := denied || !ok;
      events := events + [DetachTried(ok)];
    }

    /** Opens the snapshot for writing, which truncates it. */
    method OpenStream() returns (ok: bool)
      modifies `stream, `denied
      ensures ok ==> stream == []
      ensures denied == (old(denied) || !ok)
    {
      ok := *;
      denied := denied || !ok;
      stream := [];
    }

    /** A failed write may leave part of the bytes behind. */
    method Write(bytes: seq<Byte>) returns (ok: bool)
      modifies `stream, `denied
      ensures ok ==> stream == old(stream) + bytes
      ensures old(stream) <= stream && denied == (old(denied) || !ok)
    {
      ok := *;
      denied := denied || !ok;
      var partial := *;
      stream := stream + (if ok || partial < 0 || partial > |bytes| then bytes else bytes[..partial]);
    }

    /** The stream position, or -1. */
    method Tell() returns (position: int)
      modifies `denied
      ensures position == -1 || position == |stream|
      ensures denied == (old(denied) || position == -1)
    {
      var ok := *;
      denied := denied || !ok;
      position := if ok then |stream| else -1;
    }

    method Flush() returns (ok: bool)
      modifies `cache, `events, `denied
      ensures ok ==> cache == stream
      ensures denied == (old(denied) || !ok)
      ensures events == old(events) + [Flushed(ok)]
    {
      ok := *;
      denied := denied || !ok;
      if ok {
        cache := stream;
      }
      events := events + [Flushed(ok)];
    }

    method Sync() returns (ok: bool)
      modifies `disk, `events, `denied
      ensures ok ==> disk == cache
      ensures denied == (old(denied) || !ok)
      ensures events == old(events) + [Synced(ok)]
    {
      ok := *;
      denied := denied || !ok;
      if ok {
        disk := cache;
      }
      events := events + [Synced(ok)];
    }

    method CloseStream() returns (ok: bool)
      modifies `events, `denied
      ensures events == old(events) + [Closed(ok)] && denied == (old(denied) || !ok)
    {
      ok := *;
      denied := denied || !ok;
      events := events + [Closed(ok)];
    }

    /**
     Reads target memory into a buffer of one page: fewer bytes than asked, none, -1
     with or without an interruption. Without a failure, something is read where something is mapped.
     */
    method ReadMemory(address: int, count: nat) returns (n: int, interrupted: bool, bytes: seq<Byte>)
      requires count <= BUFFER
      modifies `interruptions, `denied
      ensures -1 <= n <= count && (old(denied) ==> denied) && (n > 0 || (n == -1 && interrupted) ==> denied == old(denied))
      ensures n >= 0 ==> bytes == MemBytes(image.mem, address, n)
      ensures n >= 0 ==> Mapped(image.mem, address, n)
      ensures n >= 0 ==> interruptions == old(interruptions)
      ensures n == -1 && interrupted ==> interruptions < old(interruptions)
      ensures n == -1 && !interrupted ==> denied || !Mapped(image.mem, address, count)
      ensures n == 0 && count > 0 ==> denied || !Mapped(image.mem, address, count)
    {
      n, interrupted := *, *;
      bytes := [];
      if n < 0 {
        n := -1;
        interrupted := interrupted && interruptions > 0;
        if interrupted {
          interruptions := interruptions - 1;
        } else {
          denied := denied || Mapped(image.mem, address, count);
        }
      } else {
        n := if n > count then count else n;
        if !Mapped(image.mem, address, n) {
          n := 0;
        }
        denied := denied || (n == 0 && Mapped(image.mem, address, count));
        bytes := MemBytes(image.mem, address, n);
      }
    }

    /** 0 exactly for two descriptors of one open file, -1 when the comparison fails. */
    method CompareFiles(a: int, b: int) returns (order: int)
      requires a in image.fileOf && b in image.fileOf
      modifies `kcmpBroken
      ensures order == -1 ==> kcmpBroken
      ensures order != -1 ==> kcmpBroken == old(kcmpBroken)
      ensures order != -1 ==> (order == 0 <==> image.fileOf[a] == image.fileOf[b])
    {
      var ok := *;
      if ok {
        order := if image.fileOf[a] == image.fileOf[b] then 0 else if image.fileOf[a] < image.fileOf[b] then 1 else 2;
      } else {
        order := -1;
        kcmpBroken := true;
      }
    }
  }
}
