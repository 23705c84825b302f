/** A check promises what a dump writes, and refuses what a dump refuses. */
module Agreement {
  import opened Bytes
  import opened DumpFormat
  import opened PathPool
  import opened Maps
  import opened Fds
  import opened Target
  import opened Collector
  import opened Layout
  import opened RoundTrip
  import Checker
  import Dumper
  import Migration

  /** The header of the file carries the numbers the check reported. */
  ghost predicate PromiseKept(file: seq<Byte>, n: Checker.Counters, dumpableFds: nat) {
    && |file| >= HEADER_SIZE
    && var h := HeaderAt(file);
    && h.vmaCount == n.dumpable
    && h.kernelMapCount == n.kernel
    && h.fdCount == dumpableFds
    && |file| - h.dataOffset == n.bytes
  }

  /** Two independent walks over one process come to the same numbers. */
  lemma {:induction false} PromiseIsKept(file: seq<Byte>, image: Image, exact: bool, n: Checker.Counters, dumpableFds: nat)
    requires SnapshotOf(file, image, exact) && ImageOk(image)
    requires Checker.Counted(n, image.lines)
    ensures PromiseKept(file, n, dumpableFds) <==> dumpableFds == |FdsOfClass(image.fds, FdDump)|
  {
    hide SnapshotOf, LinesOrdered, FdsConsistent, Laid, AllMapped, FdsLinked, HeaderBytes, VmaTable, FdTable, HeaderAt;
    hide RecordsAll, KernelMapsOf, FdsCollected, PromiseKept, Checker.Counted;
    var p := Migration.PartsOf(file, image, exact);
    HeaderRoundTrip(file, HeaderOf(p));
    FileSize(p, image, file);
    PartsCount(p, image);
    CountsAgree(file, p, image, n, dumpableFds);
  }

  lemma {:induction false} PartsCount(p: Parts, image: Image)
    requires Describes(p, image)
    ensures |p.vmas| == |OfClass(image.lines, VmaDump)| && |p.kernelMaps| == |OfClass(image.lines, VmaKernel)|
    ensures |p.fds| == |FdsOfClass(image.fds, FdDump)|
  {
    hide LinesOrdered, FdsConsistent, Laid, AllMapped, FdsLinked, Sorted;
  }

  lemma {:induction false} CountsAgree(file: seq<Byte>, p: Parts, image: Image, n: Checker.Counters, dumpableFds: nat)
    requires p.Valid() && |file| >= HEADER_SIZE && HeaderAt(file) == HeaderOf(p)
    requires |p.vmas| == |OfClass(image.lines, VmaDump)| && |p.kernelMaps| == |OfClass(image.lines, VmaKernel)|
    requires |p.fds| == |FdsOfClass(image.fds, FdDump)| && Checker.Counted(n, image.lines)
    requires |file| == p.DataOffset() + TotalSize(OfClass(image.lines, VmaDump)) < TWO_63
    ensures PromiseKept(file, n, dumpableFds) <==> dumpableFds == |FdsOfClass(image.fds, FdDump)|
  {
    hide HeaderAt, OfClass, FdsOfClass;
  }

  /**
   A check and then a dump of one stopped process. The check may find the
   mapping list closed to it, or lose it halfway, and says so. What it misses of
   the descriptors it does not say, and neither does the dump: the promise of a
   check without such a reason is kept exactly when both saw equally many to
   carry, which after a dump that saw everything means that the check missed
   none. Neither misses anything unless reading broke off or an answer was lost.
   */
  method CheckThenDump(host: Host, kill: bool)
    returns (maps: Checker.MapsReport, fds: Checker.FdsReport, run: Dumper.Run, ghost checked: seq<FdView>, ghost missed: bool)
    requires ImageOk(host.image) && !host.kcmpBroken && host.events == []
    modifies host
    ensures Checker.Gone !in maps.reasons && Checker.NotInspectable !in maps.reasons ==>
      Checker.Counted(maps.counters, host.image.lines) && Checker.ReasonsTrue(maps.reasons, false, host.image.lines)
    ensures Glimpse(host.image.fds, checked) && (!missed ==> checked == host.image.fds)
    ensures run.Complete() ==> Skimmed(host.image.fds, host.seen) && (host.SawAll() ==> host.seen == host.image.fds)
    ensures run.Complete() && Checker.Gone !in maps.reasons && Checker.NotInspectable !in maps.reasons ==>
      && (PromiseKept(host.disk, maps.counters, fds.dumpableFds)
          <==> |FdsOfClass(checked, FdDump)| == |FdsOfClass(host.seen, FdDump)|)
      && (host.SawAll() ==>
            (PromiseKept(host.disk, maps.counters, fds.dumpableFds) <==> MissedNone(host.image.fds, checked)))
  {
    hide SnapshotOf, ImageOk, PromiseKept, Checker.Counted, OfClass, FdsOfClass, Glimpse, Skimmed, MissedNone, Dumper.Dumpable;
    var opening: Checker.Opening, broken: bool, read: nat := *, *, *;
    var lines := if broken && read <= |host.image.lines| then host.image.lines[..read] else host.image.lines;
    maps := Checker.ScanMaps(opening, lines, broken);
    fds := Checker.ScanFds(host);
    checked, missed := host.answers, !host.SawAll();
    var ok;
    ok, run := Dumper.Dump(host, kill);
    if run.Complete() && Checker.Gone !in maps.reasons && Checker.NotInspectable !in maps.reasons {
      Dumper.SeenOk(host.image, host.seen);
      PromiseIsKept(host.disk, host.Seen(), !host.kcmpBroken, maps.counters, fds.dumpableFds);
      GlimpseCounts(host.image.fds, checked);
    }
  }

  /** A check without a reason about mappings, on names and paths that fit, rules out every refusal the listing could cause. */
  lemma {:induction false} NoReasonNoRefusal(lines: seq<RawLine>, reasons: seq<Checker.Reason>, why: MapsRefusal, failed: bool)
    requires Checker.ReasonsTrue(reasons, false, lines) && reasons == [] && NamesFit(lines) && PathsFit(lines, 0)
    requires TrueCause(why, lines, 0, failed)
    ensures failed && (why == OutOfMemory || why == ReadFailed)
  {
  }

  /**
   The check looks neither at the length of kernel mapping names nor at the room
   the paths take. Without a reason of its own, a listing is one a snapshot can
   hold exactly when both fit.
   */
  lemma {:induction false} CheckDecidesUpToRoom(lines: seq<RawLine>, reasons: seq<Checker.Reason>)
    requires Checker.ReasonsTrue(reasons, false, lines) && reasons == []
    ensures Collectable(lines, 0) <==> NamesFit(lines) && PathsFit(lines, 0)
  {
  }

  /** Where a snapshot can hold the listing, the check can only be stricter about mappings the dump drops or fails to read. */
  lemma {:induction false} StricterOnly(lines: seq<RawLine>, reasons: seq<Checker.Reason>)
    requires Checker.ReasonsTrue(reasons, false, lines) && reasons != [] && Collectable(lines, 0)
    ensures Checker.SharedMapping in reasons || Checker.DeviceMapping in reasons
  {
    hide NamesFit, PathsFit, OfClass;
    var why := reasons[0];
    assert why in reasons;
    match why {
      case SharedMapping =>
      case DeviceMapping =>
      case TooManyKernelMaps => assert false;
      case NoDumpableMapping => assert false;
      case NotInspectable => assert false;
      case Gone => assert false;
    }
  }

  /** A check of a listing and the collecting of it: without a reason the collecting works, failing calls aside, exactly when both fit. */
  method CheckThenCollect(host: Host, lines: seq<RawLine>) returns (maps: Checker.MapsReport, r: MapsResult, pool: Pool)
    requires !host.denied
    modifies host`denied
    ensures maps.reasons == [] && r.Collected? ==> NamesFit(lines) && PathsFit(lines, 0)
    ensures maps.reasons == [] && r.Refused? ==> !NamesFit(lines) || !PathsFit(lines, 0) || host.denied || pool.short
    ensures maps.reasons != [] && r.Collected? ==> Checker.SharedMapping in maps.reasons || Checker.DeviceMapping in maps.reasons
  {
    hide NamesFit, PathsFit, OfClass, RecordsAll, KernelMapsOf;
    maps := Checker.ScanMaps(Checker.Opened, lines, false);
    pool := new Pool();
    r := CollectVmas(host, lines, pool);
    if maps.reasons == [] {
      CheckDecidesUpToRoom(lines, maps.reasons);
    } else if r.Collected? {
      StricterOnly(lines, maps.reasons);
    }
  }

  lemma {:induction false} LastLine(rest: seq<RawLine>, l: ParsedLine, c: VmaClass)
    ensures OfClass(rest + [Parsed(l)], c) == if c == ClassifyMapsLine(l) then OfClass(rest, c) + [l] else OfClass(rest, c)
  {
    hide ClassifyMapsLine;
    var lines := rest + [Parsed(l)];
    assert lines[..|rest|] == rest && lines[..|rest| + 1] == lines;
    OfClassStep(lines, |rest|, c);
  }

  const LONG_NAME: seq<Byte> := VVAR + Filler(30)

  function Filler(n: nat): (s: seq<Byte>)
    ensures |s| == n && NoNul(s)
  {
    seq(n, _ => 95)
  }

  /** A listing the check finds nothing wrong with although no dump of it can succeed. */
  lemma {:induction false} CheckMissesLongNames()
    ensures var lines := [Parsed(MapsLine(0x40_0000, 0x40_1000, 0, "r--p", [])),
                          Parsed(MapsLine(0x7F_0000, 0x7F_1000, 0, "r--p", LONG_NAME))];
      Checker.ReasonsTrue([], false, lines) && PathsFit(lines, 0) && !Collectable(lines, 0)
  {
    var a: ParsedLine := MapsLine(0x40_0000, 0x40_1000, 0, "r--p", []);
    var b: ParsedLine := MapsLine(0x7F_0000, 0x7F_1000, 0, "r--p", LONG_NAME);
    assert VVAR <= b.path && IsKernelMap(b.path);
    assert ClassifyMapsLine(a) == VmaDump && ClassifyMapsLine(b) == VmaKernel && !Checker.IsDevice(a);
    TwoLines(a, b, VmaDump);
    TwoLines(a, b, VmaKernel);
    TwoLines(a, b, VmaSkipShared);
    hide ClassifyMapsLine, Filler, OfClass;
    var lines := [Parsed(a), Parsed(b)];
    assert PathBytes([a]) == 0;
    assert OfClass(lines, VmaDump) == [a] && OfClass(lines, VmaKernel) == [b] && OfClass(lines, VmaSkipShared) == [];
    assert |OfClass(lines, VmaKernel)[0].path| >= KERNEL_MAP_NAME_LEN;
  }

  lemma {:induction false} TwoLines(a: ParsedLine, b: ParsedLine, c: VmaClass)
    ensures OfClass([Parsed(a), Parsed(b)], c)
         == (if c == ClassifyMapsLine(a) then [a] else []) + (if c == ClassifyMapsLine(b) then [b] else [])
  {
    LastLine([], a, c);
    LastLine([Parsed(a)], b, c);
    assert [] + [Parsed(a)] == [Parsed(a)] && [Parsed(a)] + [Parsed(b)] == [Parsed(a), Parsed(b)];
    assert OfClass([], c) == [];
  }

  const LONG_PATH: seq<Byte> := Filler(4000)

  function LongLine(i: nat): (l: ParsedLine)
    requires i < MANY
  {
    MapsLine(PAGE_SIZE * (i + 1), PAGE_SIZE * (i + 2), 0, "r--p", LONG_PATH)
  }

  const MANY: nat := 0x20_0000

  /** So many mappings of files with long names that their paths alone pass 4 GiB. */
  function LongPaths(n: nat): (lines: seq<RawLine>)
    requires n <= MANY
    ensures |lines| == n && forall i :: 0 <= i < n ==> lines[i] == Parsed(LongLine(i))
  {
    seq(n, i requires 0 <= i < n => Parsed(LongLine(i)))
  }

  lemma {:induction false} LongLineDumped(i: nat)
    requires i < MANY
    ensures ClassifyMapsLine(LongLine(i)) == VmaDump && PathRoom(LongLine(i)) == 4001 && LongLine(i).path == LONG_PATH
  {
    assert LONG_PATH[0] == 95;
  }

  function LongLines(n: nat): (lines: seq<ParsedLine>)
    requires n <= MANY
    ensures |lines| == n && forall i :: 0 <= i < n ==> lines[i] == LongLine(i)
  {
    seq(n, i requires 0 <= i < n => LongLine(i))
  }

  lemma {:induction false} LongPathsLast(n: nat)
    requires 0 < n <= MANY
    ensures LongPaths(n) == LongPaths(n - 1) + [Parsed(LongLine(n - 1))]
    ensures LongLines(n) == LongLines(n - 1) + [LongLine(n - 1)]
  {
    hide LongLine;
  }

  lemma {:induction false} LongPathsOfClass(n: nat, c: VmaClass)
    requires n <= MANY
    ensures OfClass(LongPaths(n), c) == if c == VmaDump then LongLines(n) else []
  {
    if n > 0 {
      hide LongPaths, LongLines, LongLine, ClassifyMapsLine, OfClass;
      LongPathsOfClass(n - 1, c);
      LongPathsLast(n);
      LongLineDumped(n - 1);
      LastLine(LongPaths(n - 1), LongLine(n - 1), c);
    }
  }

  lemma {:induction false} LongPathBytes(n: nat)
    requires n <= MANY
    ensures PathBytes(LongLines(n)) == n * 4001
  {
    if n > 0 {
      hide LongLines, LongLine, PathBytes, PathRoom;
      LongPathBytes(n - 1);
      LongPathsLast(n);
      LongLineDumped(n - 1);
      PathBytesStep(LongLines(n - 1), LongLine(n - 1));
    }
  }

  lemma {:induction false} LongPathsOrdered(n: nat)
    requires n <= MANY
    ensures LinesOrdered(LongPaths(n))
  {
    var lines := LongPaths(n);
    forall i, j | 0 <= i < j < n ensures lines[i].line.end <= lines[j].line.start {
      assert PAGE_SIZE * (i + 2) <= PAGE_SIZE * (j + 1);
    }
  }

  lemma {:induction false} MissedForRoom(lines: seq<RawLine>, dumped: seq<ParsedLine>)
    requires OfClass(lines, VmaDump) == dumped && |dumped| > 0 && PathBytes(dumped) >= TWO_32
    requires forall l :: l in dumped ==> !Checker.IsDevice(l)
    requires OfClass(lines, VmaKernel) == [] && OfClass(lines, VmaSkipShared) == []
    ensures Checker.ReasonsTrue([], false, lines) && NamesFit(lines) && !Collectable(lines, 0)
  {
    hide OfClass, PathBytes, Checker.IsDevice;
  }

  /** A listing in order, page by page, that the check finds nothing wrong with although no dump of it can succeed. */
  lemma {:induction false} CheckMissesLongPaths()
    ensures var lines := LongPaths(MANY);
      LinesOrdered(lines) && Checker.ReasonsTrue([], false, lines) && NamesFit(lines) && !Collectable(lines, 0)
  {
    hide LongPaths, LongLines, OfClass, PathBytes, LinesOrdered, Checker.IsDevice, Checker.ReasonsTrue, NamesFit, Collectable;
    LongPathsOfClass(MANY, VmaDump);
    LongPathsOfClass(MANY, VmaKernel);
    LongPathsOfClass(MANY, VmaSkipShared);
    LongPathBytes(MANY);
    LongPathsOrdered(MANY);
    NoDevices(MANY);
    MissedForRoom(LongPaths(MANY), LongLines(MANY));
  }

  lemma {:induction false} NoDevices(n: nat)
    requires n <= MANY
    ensures forall l :: l in LongLines(n) ==> !Checker.IsDevice(l)
  {
    assert LONG_PATH[0] == 95;
    forall l | l in LongLines(n) ensures !Checker.IsDevice(l) {
      assert l.path[0] != Checker.DEV[0];
    }
  }
}
