/** Reopening the files of a snapshot in the child, and giving their descriptors their flags back. */
module Descriptors {
  import opened Bytes
  import opened DumpFormat
  import opened PathPool
  import opened AddressSpace
  import opened Child
  import opened Injection
  import Reader

  /** The open file an entry comes back with. */
  function Reopened(e: Fd, pool: seq<Byte>): OpenFile
    requires e.pathOffset <= |pool|
  {
    OpenFile(CString(pool, e.pathOffset), ClearBit(e.flags, O_CLOEXEC), if HasBit(e.flags, O_PATH) then 0 else e.position)
  }

  predicate SlotsOk(fds: map<int, Slot>, count: nat) {
    forall n :: n in fds ==> n >= 0 && fds[n].file < count
  }

  /** Entry `i` is in place: a file of its own, or the file of the entry it duplicates. */
  predicate EntryPlaced(fds: map<int, Slot>, files: seq<OpenFile>, table: seq<Fd>, pool: seq<Byte>, i: nat)
    requires i < |table|
  {
    var e := table[i];
    && e.fd as int in fds && !fds[e.fd].cloexec && fds[e.fd].file < |files|
    && (e.dupOf == -1 ==> e.pathOffset <= |pool| && files[fds[e.fd].file] == Reopened(e, pool))
    && (e.dupOf != -1 ==> e.dupOf as int in fds && fds[e.fd].file == fds[e.dupOf].file)
  }

  /** The numbers of the first `n` entries. */
  function Numbers(table: seq<Fd>, n: nat): set<int>
    requires n <= |table|
  {
    if n == 0 then {} else Numbers(table, n - 1) + {table[n - 1].fd as int}
  }

  lemma {:induction false} NumberOf(table: seq<Fd>, n: nat, k: int)
    requires n <= |table|
    ensures k in Numbers(table, n) <==> exists i :: 0 <= i < n && table[i].fd == k
  {
    if n > 0 {
      NumberOf(table, n - 1, k);
      assert k == table[n - 1].fd ==> exists i :: 0 <= i < n && table[i].fd == k;
    }
  }

  /** The first `n` entries are in place over the inherited descriptors `base`; files below `count` are inherited. */
  ghost predicate Placed(base: map<int, Slot>, count: nat, fds: map<int, Slot>, files: seq<OpenFile>, table: seq<Fd>, pool: seq<Byte>, n: nat)
    requires n <= |table|
  {
    && SlotsOk(fds, |files|) && count <= |files|
    && fds.Keys == base.Keys + Numbers(table, n)
    && (forall k :: k in base ==> k in fds && fds[k] == base[k])
    && (forall i :: 0 <= i < n ==> EntryPlaced(fds, files, table, pool, i))
    && OwnFiles(count, fds, table, n)
  }

  /** No entry has an inherited file, and no two entries opened by path share one. */
  predicate OwnFiles(count: nat, fds: map<int, Slot>, table: seq<Fd>, n: nat)
    requires n <= |table|
  {
    && (forall i :: 0 <= i < n ==> table[i].fd as int in fds && fds[table[i].fd].file >= count)
    && (forall i, j :: 0 <= i < j < n && table[i].dupOf == -1 && table[j].dupOf == -1 ==>
          fds[table[i].fd].file != fds[table[j].fd].file)
  }

  /** The inherited descriptors are stdio, whichever of the three are open. */
  predicate BaseOk(base: map<int, Slot>, count: nat) {
    SlotsOk(base, count) && forall k :: k in base ==> k <= 2
  }

  /** What one step of the loop does: a new number, either a file of its own or a lower entry's. */
  ghost predicate Stepped(fds: map<int, Slot>, files: seq<OpenFile>, fds': map<int, Slot>, files': seq<OpenFile>, e: Fd, pool: seq<Byte>) {
    if e.dupOf != -1 then
      e.dupOf as int in fds && fds' == fds[e.fd as int := Slot(fds[e.dupOf].file, false)] && files' == files
    else
      e.pathOffset <= |pool| && fds' == fds[e.fd as int := Slot(|files|, false)] && files' == files + [Reopened(e, pool)]
  }

  /** The number of the next entry is free: it is above stdio and above every number already placed. */
  lemma {:induction false} NumberNew(base: map<int, Slot>, fds: map<int, Slot>, table: seq<Fd>, n: nat)
    requires n < |table| && (forall i :: 0 <= i < n ==> table[i].fd != table[n].fd)
    requires table[n].fd > 2 && fds.Keys == base.Keys + Numbers(table, n) && forall k :: k in base ==> k <= 2
    ensures table[n].fd as int !in fds
  {
    NumberOf(table, n, table[n].fd);
  }

  lemma {:induction false} NextIsFree(base: map<int, Slot>, count: nat, fds: map<int, Slot>, files: seq<OpenFile>, table: seq<Fd>, pool: seq<Byte>, n: nat)
    requires n < |table| && Reader.FdTableOk(table, pool) && BaseOk(base, count) && Placed(base, count, fds, files, table, pool, n)
    ensures table[n].fd as int !in fds && table[n].fd > 2
    ensures table[n].dupOf != -1 ==> table[n].dupOf as int in fds && exists j :: 0 <= j < n && table[j].fd == table[n].dupOf
    ensures table[n].pathOffset <= |pool|
  {
    Reader.Ordered(table, pool);
    assert Reader.EntryOk(table, pool, n);
    Reader.AcceptedTable(table, pool, n);
    NumberNew(base, fds, table, n);
    if table[n].dupOf != -1 {
      var j :| 0 <= j < n && table[j].fd == table[n].dupOf;
      assert EntryPlaced(fds, files, table, pool, j);
    }
  }

  lemma {:induction false} EntryKept(fds: map<int, Slot>, files: seq<OpenFile>, fds': map<int, Slot>, files': seq<OpenFile>,
                                     table: seq<Fd>, pool: seq<Byte>, n: nat, i: nat)
    requires i < |table| && n < |table| && EntryPlaced(fds, files, table, pool, i)
    requires Stepped(fds, files, fds', files', table[n], pool) && table[n].fd as int !in fds
    ensures EntryPlaced(fds', files', table, pool, i) && fds'[table[i].fd] == fds[table[i].fd]
  {
    hide Reopened;
  }

  lemma {:induction false} EntryNew(fds: map<int, Slot>, files: seq<OpenFile>, fds': map<int, Slot>, files': seq<OpenFile>,
                                    table: seq<Fd>, pool: seq<Byte>, n: nat)
    requires n < |table| && SlotsOk(fds, |files|) && table[n].fd > 2
    requires Stepped(fds, files, fds', files', table[n], pool) && table[n].fd as int !in fds
    ensures EntryPlaced(fds', files', table, pool, n) && SlotsOk(fds', |files'|)
    ensures table[n].dupOf == -1 ==> fds'[table[n].fd].file == |files|
    ensures table[n].dupOf != -1 ==> table[n].dupOf as int in fds && fds'[table[n].fd].file == fds[table[n].dupOf].file
  {
    hide Reopened;
  }

  lemma {:induction false} PlacedNext(base: map<int, Slot>, count: nat, fds: map<int, Slot>, files: seq<OpenFile>,
                                      fds': map<int, Slot>, files': seq<OpenFile>, table: seq<Fd>, pool: seq<Byte>, n: nat)
    requires n < |table| && Reader.FdTableOk(table, pool) && BaseOk(base, count)
    requires Placed(base, count, fds, files, table, pool, n)
    requires Stepped(fds, files, fds', files', table[n], pool)
    ensures Placed(base, count, fds', files', table, pool, n + 1)
  {
    hide Reader.FdTableOk, EntryPlaced, OwnFiles;
    NextIsFree(base, count, fds, files, table, pool, n);
    EntryNew(fds, files, fds', files', table, pool, n);
    forall i | 0 <= i < n
      ensures EntryPlaced(fds', files', table, pool, i) && table[i].fd as int in fds && fds'[table[i].fd] == fds[table[i].fd]
    {
      EntryKept(fds, files, fds', files', table, pool, n, i);
      OwnFileAt(count, fds, table, n, i);
    }
    assert Numbers(table, n + 1) == Numbers(table, n) + {table[n].fd as int};
    assert fds'.Keys == fds.Keys + {table[n].fd as int};
    OwnFilesNext(count, fds, |files|, fds', table, n);
  }

  lemma {:induction false} OwnFileAt(count: nat, fds: map<int, Slot>, table: seq<Fd>, n: nat, i: nat)
    requires i < n <= |table| && OwnFiles(count, fds, table, n)
    ensures table[i].fd as int in fds
  {
  }

  lemma {:induction false} OwnFilesNext(count: nat, fds: map<int, Slot>, fileCount: nat, fds': map<int, Slot>, table: seq<Fd>, n: nat)
    requires n < |table| && OwnFiles(count, fds, table, n) && SlotsOk(fds, fileCount) && count <= fileCount
    requires forall i :: 0 <= i < n ==> table[i].fd as int in fds' && fds'[table[i].fd] == fds[table[i].fd]
    requires table[n].fd as int in fds'
    requires table[n].dupOf == -1 ==> fds'[table[n].fd].file == fileCount
    requires table[n].dupOf != -1 ==>
      exists j :: 0 <= j < n && table[j].fd == table[n].dupOf && fds'[table[n].fd].file == fds[table[j].fd].file
    ensures OwnFiles(count, fds', table, n + 1)
  {
    forall i, j | 0 <= i < j < n + 1 && table[i].dupOf == -1 && table[j].dupOf == -1
      ensures fds'[table[i].fd].file != fds'[table[j].fd].file
    {
      assert table[i].fd as int in fds && fds[table[i].fd].file < fileCount;
    }
  }

  /** The flags a file is reopened with, as numbers: those above and below the close-on-exec bit, and that bit clear. */
  lemma {:induction false} ReopenedFlags(flags: U32)
    ensures var kept := ClearBit(flags, O_CLOEXEC);
      kept / 0x10_0000 == flags / 0x10_0000 && (kept / 0x8_0000) % 2 == 0 && kept % 0x8_0000 == flags % 0x8_0000
    ensures HasBit(flags, O_PATH) <==> (flags / 0x20_0000) % 2 == 1
  {
    if HasBit(flags, O_CLOEXEC) {
      var q, r := flags / 0x8_0000, flags % 0x8_0000;
      assert (flags - 0x8_0000) / 0x8_0000 == q - 1 && (flags - 0x8_0000) % 0x8_0000 == r;
    }
  }

  lemma {:induction false} CleanFlags(flags: U32)
    ensures !HasBit(ClearBit(flags, O_CLOEXEC), O_CLOEXEC)
    ensures ClearBit(ClearBit(flags, O_CLOEXEC), O_CLOEXEC) == ClearBit(flags, O_CLOEXEC)
  {
  }

  /** Taking the close-on-exec bit out of flags that neither create nor empty a file leaves them so. */
  lemma {:induction false} StaysHarmless(disk: map<seq<Byte>, seq<Byte>>, path: seq<Byte>, flags: U32)
    requires !Reader.Forbidden(flags)
    ensures Opened(disk, path, ClearBit(flags, O_CLOEXEC)) == disk
  {
    if HasBit(flags, O_CLOEXEC) {
      assert (flags - 0x8_0000) / 0x200 == flags / 0x200 - 0x400;
      assert (flags - 0x8_0000) / 0x40 == flags / 0x40 - 0x2000;
    }
  }

  /** The entry is to be wound to an offset that is no file position. */
  predicate Unseekable(e: Fd) {
    e.dupOf == -1 && !HasBit(e.flags, O_PATH) && e.position >= TWO_63
  }

  /**
   Puts one entry in place; only a failed call or an offset that is no file
   position keeps it from that. Flags that are not forbidden leave every file as
   it was.
   */
  method PlaceFd(c: Tracee, e: Fd, pool: seq<Byte>) returns (ok: bool)
    requires e.pathOffset <= |pool| && e.fd > 2 && e.fd as int !in c.fds && SlotsOk(c.fds, |c.files|)
    requires e.dupOf != -1 ==> e.dupOf as int in c.fds
    modifies c`fds, c`files, c`failed, c`disk
    ensures if ok then c.failed == old(c.failed) else old(c.failed) ==> c.failed
    ensures !ok ==> c.failed || Unseekable(e)
    ensures ok ==> !Unseekable(e)
    ensures !Reader.Forbidden(e.flags) ==> c.disk == old(c.disk)
    ensures ok ==> Stepped(old(c.fds), old(c.files), c.fds, c.files, e, pool)
  {
    if e.dupOf != -1 {
      ok := c.Dup2(e.dupOf, e.fd);
      return;
    }
    var path := CString(pool, e.pathOffset);
    CleanFlags(e.flags);
    if !Reader.Forbidden(e.flags) {
      StaysHarmless(c.disk, path, e.flags);
    }
    hide Reader.Forbidden, Opened;
    var temporary := c.Open(path, ClearBit(e.flags, O_CLOEXEC));
    if temporary == -1 {
      return false;
    }
    // the lowest free number never passes the wanted one
    assert temporary <= e.fd;
    if !HasBit(e.flags, O_PATH) {
      ok := c.Seek(temporary, if e.position < TWO_63 then e.position else e.position - TWO_64);
      if !ok {
        c.Close(temporary);
        return;
      }
    }
    if temporary != e.fd {
      ok := c.Dup2(temporary, e.fd);
      if !ok {
        c.Close(temporary);
        return;
      }
      c.Close(temporary);
    }
    ok := true;
  }

  /**
   Runs in the forked child: closes what the engine inherited and puts every
   entry in place, or meets a failed call or an offset that is no file position.
   No file is created or emptied.
   */
  method OpenSnapshotFds(c: Tracee, table: seq<Fd>, pool: seq<Byte>) returns (ok: bool, ghost base: map<int, Slot>)
    requires Reader.FdTableOk(table, pool) && SlotsOk(c.fds, |c.files|)
    modifies c`fds, c`files, c`failed, c`disk
    ensures (if ok then c.failed == old(c.failed) else old(c.failed) ==> c.failed) && c.disk == old(c.disk)
    ensures !ok ==> c.failed || exists i :: 0 <= i < |table| && Unseekable(table[i])
    ensures ok ==> !exists i :: 0 <= i < |table| && Unseekable(table[i])
    ensures base == map k | k in old(c.fds) && k <= 2 :: old(c.fds)[k]
    ensures ok ==> Placed(base, old(|c.files|), c.fds, c.files, table, pool, |table|)
  {
    hide Reader.FdTableOk, Reader.Forbidden, Placed, Stepped, Unseekable;
    base := map k | k in c.fds && k <= 2 :: c.fds[k];
    ghost var count := |c.files|;
    ok := c.CloseRange(3);
    if !ok {
      return;
    }
    assert c.fds == base;
    NothingPlaced(base, c.files, table, pool);
    for i := 0 to |table|
      invariant c.failed == old(c.failed) && c.disk == old(c.disk)
      invariant forall j :: 0 <= j < i ==> !Unseekable(table[j])
      invariant Placed(base, count, c.fds, c.files, table, pool, i)
    {
      EntryHarmless(table, pool, i);
      NextIsFree(base, count, c.fds, c.files, table, pool, i);
      SlotsOf(base, count, c.fds, c.files, table, pool, i);
      ghost var fds, files := c.fds, c.files;
      ok := PlaceFd(c, table[i], pool);
      if !ok {
        return;
      }
      PlacedNext(base, count, fds, files, c.fds, c.files, table, pool, i);
    }
    ok := true;
  }

  lemma {:induction false} EntryHarmless(table: seq<Fd>, pool: seq<Byte>, i: nat)
    requires Reader.FdTableOk(table, pool) && i < |table|
    ensures !Reader.Forbidden(table[i].flags)
  {
    assert Reader.EntryOk(table, pool, i);
  }

  lemma {:induction false} NothingPlaced(base: map<int, Slot>, files: seq<OpenFile>, table: seq<Fd>, pool: seq<Byte>)
    requires SlotsOk(base, |files|)
    ensures Placed(base, |files|, base, files, table, pool, 0)
  {
  }

  lemma {:induction false} SlotsOf(base: map<int, Slot>, count: nat, fds: map<int, Slot>, files: seq<OpenFile>, table: seq<Fd>, pool: seq<Byte>, n: nat)
    requires n <= |table| && Placed(base, count, fds, files, table, pool, n)
    ensures SlotsOk(fds, |files|)
  {
  }

  // ----- sharing -----

  /** Every entry has the open file of the entry its chain of duplicates ends at. */
  lemma {:induction false} FileOfRoot(base: map<int, Slot>, count: nat, fds: map<int, Slot>, files: seq<OpenFile>, table: seq<Fd>, pool: seq<Byte>, i: nat)
    requires Reader.FdTableOk(table, pool) && i < |table| && Placed(base, count, fds, files, table, pool, |table|)
    ensures var r := Reader.Root(table, pool, i);
      table[i].fd as int in fds && table[r].fd as int in fds && fds[table[i].fd].file == fds[table[r].fd].file
    decreases i
  {
    assert EntryPlaced(fds, files, table, pool, i);
    if table[i].dupOf != -1 {
      assert Reader.EntryOk(table, pool, i);
      var j := Reader.IndexOf(table, table[i].dupOf, i);
      FileOfRoot(base, count, fds, files, table, pool, j);
    }
  }

  /** Two descriptors of the child share an open file exactly when their chains end at the same entry. */
  lemma {:induction false} SharedIffSameRoot(base: map<int, Slot>, count: nat, fds: map<int, Slot>, files: seq<OpenFile>, table: seq<Fd>, pool: seq<Byte>, i: nat, j: nat)
    requires Reader.FdTableOk(table, pool) && i < |table| && j < |table| && Placed(base, count, fds, files, table, pool, |table|)
    ensures table[i].fd as int in fds && table[j].fd as int in fds
    ensures fds[table[i].fd].file == fds[table[j].fd].file <==> Reader.Root(table, pool, i) == Reader.Root(table, pool, j)
  {
    var a, b := Reader.Root(table, pool, i), Reader.Root(table, pool, j);
    FileOfRoot(base, count, fds, files, table, pool, i);
    FileOfRoot(base, count, fds, files, table, pool, j);
    if a < b {
      assert fds[table[a].fd].file != fds[table[b].fd].file;
    } else if b < a {
      assert fds[table[b].fd].file != fds[table[a].fd].file;
    }
  }

  // ----- flags -----

  /**
   The first `n` entries have their close-on-exec bit back, if every call was
   made; none has one that is not its own, and nothing else changed.
   */
  predicate Flagged(before: map<int, Slot>, after: map<int, Slot>, table: seq<Fd>, n: nat, exact: bool)
    requires n <= |table|
  {
    && after.Keys == before.Keys
    && (forall k :: k in before ==> after[k].file == before[k].file)
    && (forall i :: 0 <= i < n && table[i].fd as int in before ==>
          && (before[table[i].fd].cloexec ==> after[table[i].fd].cloexec)
          && (after[table[i].fd].cloexec ==> HasBit(table[i].flags, O_CLOEXEC) || before[table[i].fd].cloexec)
          && (exact && HasBit(table[i].flags, O_CLOEXEC) ==> after[table[i].fd].cloexec))
    && (forall k :: k in before && (forall i :: 0 <= i < n ==> table[i].fd != k) ==> after[k] == before[k])
  }

  lemma {:induction false} FlaggedNext(before: map<int, Slot>, fds: map<int, Slot>, fds': map<int, Slot>, table: seq<Fd>, n: nat,
                                       exact: bool, ran: bool)
    requires n < |table| && Flagged(before, fds, table, n, exact)
    requires forall i, j :: 0 <= i < j < |table| ==> table[i].fd < table[j].fd
    requires if HasBit(table[n].flags, O_CLOEXEC) && ran
      then table[n].fd as int in fds && fds' == fds[table[n].fd as int := fds[table[n].fd].(cloexec := true)]
      else fds' == fds
    ensures Flagged(before, fds', table, n + 1, exact && (ran || !HasBit(table[n].flags, O_CLOEXEC)))
  {
    hide HasBit;
    assert table[n].fd as int in before ==> fds[table[n].fd] == before[table[n].fd];
    forall i | 0 <= i < n + 1 && table[i].fd as int in before
      ensures before[table[i].fd].cloexec ==> fds'[table[i].fd].cloexec
      ensures fds'[table[i].fd].cloexec ==> HasBit(table[i].flags, O_CLOEXEC) || before[table[i].fd].cloexec
      ensures exact && (ran || !HasBit(table[n].flags, O_CLOEXEC)) && HasBit(table[i].flags, O_CLOEXEC) ==> fds'[table[i].fd].cloexec
    {
      if i < n {
        assert fds'[table[i].fd] == fds[table[i].fd];
      }
    }
    forall k | k in before && (forall i :: 0 <= i < n + 1 ==> table[i].fd != k) ensures fds'[k] == before[k] {
      assert table[n].fd != k;
      assert forall i :: 0 <= i < n ==> table[i].fd != k;
    }
  }

  lemma {:induction false} FlaggedLess(before: map<int, Slot>, after: map<int, Slot>, table: seq<Fd>, n: nat, exact: bool, exact': bool)
    requires n <= |table| && Flagged(before, after, table, n, exact) && (exact' ==> exact)
    ensures Flagged(before, after, table, n, exact')
  {
    hide HasBit;
  }

  /** The calls that mark descriptors, in table order. */
  function CloexecCalls(table: seq<Fd>): seq<Report> {
    if table == [] then []
    else
      var rest, e := CloexecCalls(table[..|table| - 1]), table[|table| - 1];
      if HasBit(e.flags, O_CLOEXEC) && e.fd >= 0 then rest + [CloexecCall(e.fd)] else rest
  }

  /**
   Gives each descriptor its close-on-exec bit back by an injected call. What
   the descriptors get does not depend on whether the code went back each time.
   A call that was not made costs its descriptor the bit, and no other one anything.
   */
  method RestoreFdFlags(c: Tracee, table: seq<Fd>) returns (ok: bool)
    requires c.Live() && forall i, j :: 0 <= i < j < |table| ==> table[i].fd < table[j].fd
    requires forall i :: 0 <= i < |table| ==> table[i].fd > 2
    modifies c`space, c`regs, c`fds, c`lost, c`reported, c`cut, c`phase, c`endSeen, c`failed
    ensures c.Followed() && (ok ==> c.Live()) && (old(c.lost) ==> c.lost) && old(c.cut) <= c.cut
    ensures c.failed == (old(c.failed) || !ok)
    ensures ok ==> c.reported == old(c.reported) + CloexecCalls(table)
    ensures ok ==> c.regs == old(c.regs) && Left(old(c.space), c.space, old(c.regs[RIP]), c.lost)
    ensures ok ==>
      Flagged(old(c.fds), c.fds, table, |table|, Made(old(c.space), old(c.regs[RIP]), c.cut, SYS_FCNTL))
  {
    hide Flagged, Executable, Left, HasBit;
    ghost var site, before := c.regs[RIP], c.space;
    NothingFlagged(c.fds, c.space, site, c.lost, table, Made(before, site, c.cut, SYS_FCNTL));
    for i := 0 to |table|
      invariant c.Live() && (old(c.lost) ==> c.lost) && old(c.cut) <= c.cut && c.failed == old(c.failed)
      invariant c.reported == old(c.reported) + CloexecCalls(table[..i])
      invariant c.regs == old(c.regs) && Left(before, c.space, site, c.lost)
      invariant Flagged(old(c.fds), c.fds, table, i, Made(before, site, c.cut, SYS_FCNTL))
    {
      ghost var fds, s, lost, exact, ran := c.fds, c.space, c.lost, Made(before, site, c.cut, SYS_FCNTL), true;
      LeftExecutable(before, s, site, lost);
      if HasBit(table[i].flags, O_CLOEXEC) {
        ok, ran := InjectSetCloexec(c, table[i].fd);
        if !ok {
          return;
        }
        LeftAgain(before, s, c.space, site, lost, c.lost);
      }
      FlaggedNext(old(c.fds), fds, c.fds, table, i, exact, ran);
      FlaggedLess(old(c.fds), c.fds, table, i + 1, exact && (ran || !HasBit(table[i].flags, O_CLOEXEC)), Made(before, site, c.cut, SYS_FCNTL));
      assert table[..i + 1][..i] == table[..i];
    }
    assert table[..|table|] == table;
    ok := true;
  }

  lemma {:induction false} NothingFlagged(fds: map<int, Slot>, s: Space, at: int, lost: bool, table: seq<Fd>, exact: bool)
    ensures Flagged(fds, fds, table, 0, exact) && Left(s, s, at, lost)
  {
  }
}
