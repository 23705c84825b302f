/** Collects what a snapshot carries: the mappings worth copying and the regular files that are open. */
module Collector {
  import opened Bytes
  import opened DumpFormat
  import opened PathPool
  import opened Maps
  import opened Fds
  import opened Target
  import opened SharedFiles

  // ----- mappings -----

  datatype MapsRefusal = TooManyKernelMaps | NameTooLong | OutOfMemory | PoolFull | ReadFailed | NothingToDump

  datatype MapsResult =
    | Collected(vmas: seq<Vma>, kernelMaps: seq<KernelMap>)
    | Refused(why: MapsRefusal)

  function KernelMapOf(l: ParsedLine): KernelMap
    requires |l.path| < KERNEL_MAP_NAME_LEN
  {
    KernelMap(l.start, l.Size(), l.path + Zeros(KERNEL_MAP_NAME_LEN - |l.path|))
  }

  /** The table entry records the line; its path, when there is one, is in the pool. */
  predicate Records(v: Vma, l: ParsedLine, pool: seq<Byte>) {
    && v.start == l.start && v.size == l.Size() && v.fileOffset == l.fileOffset
    && v.prot == PermsToProt(l.privileges) && v.mapFlags == PermsToMapFlags(l.privileges)
    && v.pathLen == |l.path|
    && (if l.path == [] then v.pathOffset == 0 else StringAt(pool, v.pathOffset, l.path))
  }

  predicate RecordsAll(vmas: seq<Vma>, lines: seq<ParsedLine>, pool: seq<Byte>) {
    |vmas| == |lines| && forall i :: 0 <= i < |vmas| ==> Records(vmas[i], lines[i], pool)
  }

  predicate KernelMapsOf(maps: seq<KernelMap>, lines: seq<ParsedLine>) {
    && |maps| == |lines| <= MAX_KERNEL_MAPS
    && forall i :: 0 <= i < |maps| ==> |lines[i].path| < KERNEL_MAP_NAME_LEN && maps[i] == KernelMapOf(lines[i])
  }

  lemma {:induction false} RecordsAllKept(vmas: seq<Vma>, lines: seq<ParsedLine>, pool: seq<Byte>, more: seq<Byte>)
    requires RecordsAll(vmas, lines, pool) && pool <= more
    ensures RecordsAll(vmas, lines, more)
  {
    forall i | 0 <= i < |vmas| ensures Records(vmas[i], lines[i], more) {
      if lines[i].path != [] {
        StringKept(pool, more, vmas[i].pathOffset, lines[i].path);
      }
    }
  }

  /** What the paths of these lines take up in the pool. */
  function PathBytes(lines: seq<ParsedLine>): nat {
    if lines == [] then 0 else PathBytes(lines[..|lines| - 1]) + PathRoom(lines[|lines| - 1])
  }

  function PathRoom(l: ParsedLine): nat {
    if l.path == [] then 0 else |l.path| + 1
  }

  lemma {:induction false} PathBytesStep(lines: seq<ParsedLine>, l: ParsedLine)
    ensures PathBytes(lines + [l]) == PathBytes(lines) + PathRoom(l)
  {
    assert (lines + [l])[..|lines|] == lines;
  }

  lemma {:induction false} PathBytesPrefix(a: seq<ParsedLine>, b: seq<ParsedLine>)
    requires a <= b
    ensures PathBytes(a) <= PathBytes(b)
    decreases |b|
  {
    if a != b {
      assert a <= b[..|b| - 1];
      PathBytesPrefix(a, b[..|b| - 1]);
    }
  }

  /** Appends a path unless it is empty. */
  method AppendPath(pool: Pool, path: seq<Byte>) returns (r: Stored)
    requires pool.Valid() && NoNul(path)
    modifies pool, pool.data
    ensures pool.Valid() && (pool.data == old(pool.data) || fresh(pool.data))
    ensures old(pool.Contents()) <= pool.Contents()
    ensures r.At? ==> |pool.Contents()| == |old(pool.Contents())| + if path == [] then 0 else |path| + 1
    ensures r.At? ==> r.offset < TWO_32 && if path == [] then r.offset == 0 else StringAt(pool.Contents(), r.offset, path)
    ensures r.Full? ==> path != [] && |old(pool.Contents())| + |path| + 1 >= TWO_32
    ensures pool.short == (old(pool.short) || r.NoMemory?)
  {
    if path == [] {
      return At(0);
    }
    r := pool.Append(path);
    if r.At? {
      ghost var c := pool.Contents();
      assert c[r.offset..r.offset + |path|] == path && c[r.offset + |path|] == 0;
    }
  }

  method AddKernelMap(kernelMaps: seq<KernelMap>, ghost lines: seq<ParsedLine>, parsed: ParsedLine)
    returns (refusal: Option<MapsRefusal>, r: seq<KernelMap>)
    requires KernelMapsOf(kernelMaps, lines)
    ensures refusal.None? ==> KernelMapsOf(r, lines + [parsed])
    ensures refusal.Some? ==>
      || (refusal.value == TooManyKernelMaps && |lines| == MAX_KERNEL_MAPS)
      || (refusal.value == NameTooLong && |parsed.path| >= KERNEL_MAP_NAME_LEN)
  {
    if |kernelMaps| == MAX_KERNEL_MAPS {
      return Some(TooManyKernelMaps), [];
    }
    if |parsed.path| >= KERNEL_MAP_NAME_LEN {
      return Some(NameTooLong), [];
    }
    return None, kernelMaps + [KernelMapOf(parsed)];
  }

  method AddVma(host: Host, pool: Pool, vmas: seq<Vma>, ghost lines: seq<ParsedLine>, parsed: ParsedLine)
    returns (refusal: Option<MapsRefusal>, r: seq<Vma>)
    requires pool.Valid() && RecordsAll(vmas, lines, pool.Contents())
    modifies pool, pool.data, host`denied
    ensures pool.Valid() && (pool.data == old(pool.data) || fresh(pool.data))
    ensures old(pool.Contents()) <= pool.Contents() && (old(host.denied) ==> host.denied)
    ensures refusal.None? ==> host.denied == old(host.denied) && pool.short == old(pool.short)
    ensures refusal.None? ==> RecordsAll(r, lines + [parsed], pool.Contents())
    ensures refusal.None? ==> |pool.Contents()| == |old(pool.Contents())| + PathRoom(parsed)
    ensures refusal.Some? ==>
      || (refusal.value == OutOfMemory && (host.denied || pool.short))
      || (refusal.value == PoolFull && |old(pool.Contents())| + PathRoom(parsed) >= TWO_32)
  {
    var roomForEntry := host.Try();
    if !roomForEntry {
      return Some(OutOfMemory), [];
    }
    var stored := AppendPath(pool, parsed.path);
    if stored.Full? {
      return Some(PoolFull), [];
    }
    if stored.NoMemory? {
      return Some(OutOfMemory), [];
    }
    RecordsAllKept(vmas, lines, old(pool.Contents()), pool.Contents());
    r := vmas + [Vma(parsed.start, parsed.Size(), parsed.fileOffset, 0, PermsToProt(parsed.privileges),
                     PermsToMapFlags(parsed.privileges), stored.offset, |parsed.path|)];
    return None, r;
  }

  /** What has been collected from a prefix of the listing, into a pool that held `used` bytes before. */
  ghost predicate Progress(vmas: seq<Vma>, kernelMaps: seq<KernelMap>, lines: seq<RawLine>, used: nat, pool: seq<Byte>) {
    && RecordsAll(vmas, OfClass(lines, VmaDump), pool)
    && KernelMapsOf(kernelMaps, OfClass(lines, VmaKernel))
    && |pool| == used + PathBytes(OfClass(lines, VmaDump))
  }

  predicate NamesFit(lines: seq<RawLine>) {
    forall k :: 0 <= k < |OfClass(lines, VmaKernel)| ==> |OfClass(lines, VmaKernel)[k].path| < KERNEL_MAP_NAME_LEN
  }

  /** The paths fit a pool of 32-bit offsets that holds `used` bytes already. */
  predicate PathsFit(lines: seq<RawLine>, used: nat) {
    used + PathBytes(OfClass(lines, VmaDump)) < TWO_32
  }

  /** The listing is one whose mappings a snapshot can hold. */
  predicate Collectable(lines: seq<RawLine>, used: nat) {
    && |OfClass(lines, VmaDump)| > 0
    && |OfClass(lines, VmaKernel)| <= MAX_KERNEL_MAPS
    && NamesFit(lines) && PathsFit(lines, used)
  }

  /** The cause of a refusal: something about the listing, or a call that failed. */
  ghost predicate TrueCause(why: MapsRefusal, lines: seq<RawLine>, used: nat, failed: bool) {
    match why
    case TooManyKernelMaps => |OfClass(lines, VmaKernel)| > MAX_KERNEL_MAPS
    case NameTooLong => !NamesFit(lines)
    case PoolFull => !PathsFit(lines, used)
    case NothingToDump => |OfClass(lines, VmaDump)| == 0
    case OutOfMemory => failed
    case ReadFailed => failed
  }

  /** The line that is refused makes the whole listing one that cannot be collected. */
  lemma {:induction false} RefusedLine(lines: seq<RawLine>, i: nat, used: nat)
    requires i < |lines|
    ensures Is(lines[i], VmaKernel) ==> OfClass(lines[..i], VmaKernel) + [lines[i].line] <= OfClass(lines, VmaKernel)
    ensures Is(lines[i], VmaDump) ==>
      PathBytes(OfClass(lines[..i], VmaDump)) + PathRoom(lines[i].line) <= PathBytes(OfClass(lines, VmaDump))
  {
    if Is(lines[i], VmaKernel) {
      OfClassStep(lines, i, VmaKernel);
      OfClassBounded(lines, i + 1, VmaKernel);
    }
    if Is(lines[i], VmaDump) {
      OfClassStep(lines, i, VmaDump);
      OfClassBounded(lines, i + 1, VmaDump);
      PathBytesStep(OfClass(lines[..i], VmaDump), lines[i].line);
      PathBytesPrefix(OfClass(lines[..i + 1], VmaDump), OfClass(lines, VmaDump));
    }
  }

  lemma {:induction false} KernelLineRefused(lines: seq<RawLine>, i: nat, used: nat, why: MapsRefusal, failed: bool)
    requires i < |lines| && Is(lines[i], VmaKernel)
    requires || (why == TooManyKernelMaps && |OfClass(lines[..i], VmaKernel)| == MAX_KERNEL_MAPS)
             || (why == NameTooLong && |lines[i].line.path| >= KERNEL_MAP_NAME_LEN)
    ensures TrueCause(why, lines, used, failed) && why != NothingToDump
  {
    RefusedLine(lines, i, used);
    var before := OfClass(lines[..i], VmaKernel);
    assert (before + [lines[i].line])[|before|] == OfClass(lines, VmaKernel)[|before|];
  }

  lemma {:induction false} DumpLineRefused(lines: seq<RawLine>, i: nat, used: nat, size: nat, why: MapsRefusal, failed: bool)
    requires i < |lines| && Is(lines[i], VmaDump) && size == used + PathBytes(OfClass(lines[..i], VmaDump))
    requires (why == OutOfMemory && failed) || (why == PoolFull && size + PathRoom(lines[i].line) >= TWO_32)
    ensures TrueCause(why, lines, used, failed) && why != NothingToDump
  {
    RefusedLine(lines, i, used);
  }

  /** One more line is collected: its class alone grows. */
  lemma {:induction false} LineCollected(vmas: seq<Vma>, kernelMaps: seq<KernelMap>, lines: seq<RawLine>, i: nat, used: nat, pool: seq<Byte>)
    requires i < |lines|
    requires var dumped, kernel := OfClass(lines[..i], VmaDump), OfClass(lines[..i], VmaKernel);
      if Is(lines[i], VmaDump) then
        && RecordsAll(vmas, dumped + [lines[i].line], pool) && KernelMapsOf(kernelMaps, kernel)
        && |pool| == used + PathBytes(dumped) + PathRoom(lines[i].line)
      else
        && RecordsAll(vmas, dumped, pool)
        && KernelMapsOf(kernelMaps, if Is(lines[i], VmaKernel) then kernel + [lines[i].line] else kernel)
        && |pool| == used + PathBytes(dumped)
    ensures Progress(vmas, kernelMaps, lines[..i + 1], used, pool)
  {
    hide RecordsAll, KernelMapsOf, OfClass, PathRoom, ClassifyMapsLine;
    OfClassStep(lines, i, VmaDump);
    OfClassStep(lines, i, VmaKernel);
    if Is(lines[i], VmaDump) {
      PathBytesStep(OfClass(lines[..i], VmaDump), lines[i].line);
    }
  }

  method CollectLine(host: Host, pool: Pool, vmas: seq<Vma>, kernelMaps: seq<KernelMap>, lines: seq<RawLine>, i: nat, ghost used: nat)
    returns (refusal: Option<MapsRefusal>, vmas': seq<Vma>, kernelMaps': seq<KernelMap>)
    requires i < |lines| && pool.Valid() && Progress(vmas, kernelMaps, lines[..i], used, pool.Contents())
    modifies pool, pool.data, host`denied
    ensures pool.Valid() && (pool.data == old(pool.data) || fresh(pool.data))
    ensures old(pool.Contents()) <= pool.Contents() && (old(host.denied) ==> host.denied)
    ensures refusal.None? ==> host.denied == old(host.denied) && pool.short == old(pool.short)
    ensures refusal.None? ==> Progress(vmas', kernelMaps', lines[..i + 1], used, pool.Contents())
    ensures refusal.Some? ==> TrueCause(refusal.value, lines, used, host.denied || pool.short) && refusal.value != NothingToDump
  {
    ghost var dumped, kernel := OfClass(lines[..i], VmaDump), OfClass(lines[..i], VmaKernel);
    assert RecordsAll(vmas, dumped, pool.Contents()) && KernelMapsOf(kernelMaps, kernel);
    assert |pool.Contents()| == used + PathBytes(dumped);
    hide ClassifyMapsLine, RecordsAll, KernelMapsOf, OfClass, PathRoom, PathBytes, Progress, TrueCause;
    vmas', kernelMaps' := vmas, kernelMaps;
    if lines[i].Unparsable? {
      LineCollected(vmas, kernelMaps, lines, i, used, pool.Contents());
      return None, vmas, kernelMaps;
    }
    var parsed := lines[i].line;
    var vmaClass := ClassifyMapsLine(parsed);
    if vmaClass == VmaSkipUnreadable || vmaClass == VmaSkipShared || vmaClass == VmaSkipPseudo {
      LineCollected(vmas, kernelMaps, lines, i, used, pool.Contents());
      return None, vmas, kernelMaps;
    }
    if vmaClass == VmaKernel {
      refusal, kernelMaps' := AddKernelMap(kernelMaps, kernel, parsed);
      if refusal.Some? {
        KernelLineRefused(lines, i, used, refusal.value, host.denied || pool.short);
      } else {
        LineCollected(vmas, kernelMaps', lines, i, used, pool.Contents());
      }
      return refusal, vmas, kernelMaps';
    }
    refusal, vmas' := AddVma(host, pool, vmas, dumped, parsed);
    if refusal.Some? {
      DumpLineRefused(lines, i, used, |old(pool.Contents())|, refusal.value, host.denied || pool.short);
    } else {
      LineCollected(vmas', kernelMaps, lines, i, used, pool.Contents());
    }
  }

  /**
   Walks the mapping list. It succeeds only if no call fails, and then exactly on
   the listings a snapshot can hold; a refusal names only a true cause.
   */
  method CollectVmas(host: Host, lines: seq<RawLine>, pool: Pool) returns (r: MapsResult)
    requires pool.Valid()
    modifies pool, pool.data, host`denied
    ensures pool.Valid() && (pool.data == old(pool.data) || fresh(pool.data))
    ensures old(pool.Contents()) <= pool.Contents() && (old(host.denied) ==> host.denied)
    ensures r.Collected? ==> host.denied == old(host.denied) && pool.short == old(pool.short)
    ensures r.Collected? ==> |pool.Contents()| == |old(pool.Contents())| + PathBytes(OfClass(lines, VmaDump))
    ensures r.Collected? ==> |r.vmas| > 0 && RecordsAll(r.vmas, OfClass(lines, VmaDump), pool.Contents())
    ensures r.Collected? ==> KernelMapsOf(r.kernelMaps, OfClass(lines, VmaKernel))
    ensures r.Collected? ==> Collectable(lines, |old(pool.Contents())|)
    ensures r.Refused? ==> TrueCause(r.why, lines, |old(pool.Contents())|, host.denied || pool.short)
    ensures !host.denied && !pool.short ==> (r.Collected? <==> Collectable(lines, |old(pool.Contents())|))
  {
    hide RecordsAll, OfClass, NamesFit, PathsFit, PathBytes;
    ghost var used := |pool.Contents()|;
    var listingOpened, listing := host.OpenListing(lines);
    if !listingOpened {
      return Refused(ReadFailed);
    }
    var vmas: seq<Vma> := [];
    var kernelMaps: seq<KernelMap> := [];
    NothingCollected(lines, used, pool.Contents());
    ghost var denied := host.denied;
    var read, complete := host.ReadListing(listing);
    for i := 0 to read
      invariant pool.Valid() && (pool.data == old(pool.data) || fresh(pool.data))
      invariant old(pool.Contents()) <= pool.Contents() && host.denied == (denied || !complete) && pool.short == old(pool.short)
      invariant Progress(vmas, kernelMaps, lines[..i], used, pool.Contents())
    {
      var refusal;
      refusal, vmas, kernelMaps := CollectLine(host, pool, vmas, kernelMaps, listing, i, used);
      if refusal.Some? {
        return Refused(refusal.value);
      }
    }
    if !complete {
      return Refused(ReadFailed);
    }
    assert lines[..|lines|] == lines;
    EverythingCollected(vmas, kernelMaps, lines, used, pool.Contents());
    if |vmas| == 0 {
      return Refused(NothingToDump);
    }
    return Collected(vmas, kernelMaps);
  }

  lemma {:induction false} NothingCollected(lines: seq<RawLine>, used: nat, pool: seq<Byte>)
    requires |pool| == used
    ensures Progress([], [], lines[..0], used, pool)
  {
  }

  lemma {:induction false} EverythingCollected(vmas: seq<Vma>, kernelMaps: seq<KernelMap>, lines: seq<RawLine>, used: nat, pool: seq<Byte>)
    requires Progress(vmas, kernelMaps, lines, used, pool) && |pool| < TWO_32
    ensures |vmas| == |OfClass(lines, VmaDump)| && NamesFit(lines) && PathsFit(lines, used)
    ensures |OfClass(lines, VmaKernel)| <= MAX_KERNEL_MAPS
  {
    hide OfClass;
  }

  // ----- descriptors -----

  /** What the kernel guarantees about the descriptors of a stopped process. */
  predicate FdsConsistent(image: Image) {
    && (forall i, j :: 0 <= i < j < |image.fds| ==> image.fds[i].fd != image.fds[j].fd)
    && (forall v :: v in image.fds ==> ViewOk(v) && v.fd in image.fileOf)
    && (forall v, w :: v in image.fds && w in image.fds && image.fileOf[v.fd] == image.fileOf[w.fd] ==> v.link == w.link)
  }

  /** A link text fits its buffer and holds no NUL, and no file has the empty path. */
  predicate ViewOk(v: FdView) {
    v.link.Some? ==> |v.link.value| < PATH_MAX && NoNul(v.link.value) && (v.link.value == [] ==> v.byPath.None?)
  }

  /** The table entry carries the descriptor over. */
  predicate Carries(e: Fd, v: FdView, pool: seq<Byte>) {
    && ClassifyFd(v) == FdDump && e.fd == v.fd
    && v.info == Some(FdInfo(e.position, e.flags))
    && e.pathLen == |v.link.value|
    && StringAt(pool, e.pathOffset, v.link.value)
  }

  predicate CarriesAll(fds: seq<Fd>, views: seq<FdView>, pool: seq<Byte>) {
    |fds| == |views| && forall i :: 0 <= i < |fds| ==> Carries(fds[i], views[i], pool)
  }

  lemma {:induction false} CarriesAllKept(fds: seq<Fd>, views: seq<FdView>, pool: seq<Byte>, more: seq<Byte>)
    requires CarriesAll(fds, views, pool) && pool <= more
    ensures CarriesAll(fds, views, more)
  {
    forall i | 0 <= i < |fds| ensures Carries(fds[i], views[i], more) {
      StringKept(pool, more, fds[i].pathOffset, views[i].link.value);
    }
  }

  predicate Sorted(fds: seq<Fd>) {
    forall i, j :: 0 <= i < j < |fds| ==> fds[i].fd < fds[j].fd
  }

  predicate DistinctNumbers(fds: seq<Fd>) {
    forall i, j :: 0 <= i < j < |fds| ==> fds[i].fd != fds[j].fd
  }

  function Insert(e: Fd, sorted: seq<Fd>): (r: seq<Fd>)
    ensures |r| == |sorted| + 1
    ensures multiset(r) == multiset(sorted) + multiset{e}
  {
    if sorted == [] || e.fd <= sorted[0].fd then [e] + sorted
    else
      assert sorted == [sorted[0]] + sorted[1..];
      [sorted[0]] + Insert(e, sorted[1..])
  }

  lemma {:induction false} InsertSorted(e: Fd, sorted: seq<Fd>)
    requires Sorted(sorted) && forall k :: 0 <= k < |sorted| ==> sorted[k].fd != e.fd
    ensures Sorted(Insert(e, sorted))
  {
    if sorted == [] || e.fd <= sorted[0].fd {
    } else {
      InsertSorted(e, sorted[1..]);
      var r := Insert(e, sorted);
      forall j | 1 <= j < |r| ensures r[0].fd < r[j].fd {
        assert r[j] in multiset(Insert(e, sorted[1..]));
      }
    }
  }

  /** Orders the table by descriptor number. */
  method SortByNumber(fds: seq<Fd>) returns (sorted: seq<Fd>)
    requires DistinctNumbers(fds)
    ensures Sorted(sorted) && multiset(sorted) == multiset(fds) && |sorted| == |fds|
  {
    sorted := [];
    for i := 0 to |fds|
      invariant Sorted(sorted) && multiset(sorted) == multiset(fds[..i]) && |sorted| == i
    {
      forall k | 0 <= k < |sorted| ensures sorted[k].fd != fds[i].fd {
        assert sorted[k] in multiset(fds[..i]);
      }
      InsertSorted(fds[i], sorted);
      sorted := Insert(fds[i], sorted);
      assert fds[..i + 1] == fds[..i] + [fds[i]];
    }
    assert fds[..|fds|] == fds;
  }

  predicate Unlinked(fds: seq<Fd>) {
    forall i :: 0 <= i < |fds| ==> fds[i].dupOf == -1
  }

  /** What has been collected of the descriptors in `views`, into a pool that held `used` bytes before. */
  ghost predicate FdProgress(fds: seq<Fd>, views: seq<FdView>, used: nat, pool: seq<Byte>) {
    && CarriesAll(fds, FdsOfClass(views, FdDump), pool) && Unlinked(fds) && |FdsOfClass(views, FdUnreadable)| == 0
    && |pool| == used + FdBytes(FdsOfClass(views, FdDump))
  }

  /** What the path of a carried descriptor takes up in the pool. */
  function FdRoom(v: FdView): nat {
    if v.link.None? || v.link.value == [] then 0 else |v.link.value| + 1
  }

  function FdBytes(views: seq<FdView>): nat {
    if views == [] then 0 else FdBytes(views[..|views| - 1]) + FdRoom(views[|views| - 1])
  }

  lemma {:induction false} FdBytesStep(views: seq<FdView>, v: FdView)
    ensures FdBytes(views + [v]) == FdBytes(views) + FdRoom(v)
  {
    assert (views + [v])[..|views|] == views;
  }

  lemma {:induction false} FdBytesPrefix(a: seq<FdView>, b: seq<FdView>)
    requires a <= b
    ensures FdBytes(a) <= FdBytes(b)
    decreases |b|
  {
    if a != b {
      assert a <= b[..|b| - 1];
      FdBytesPrefix(a, b[..|b| - 1]);
    }
  }

  /** A walk that misses something finds no more to carry than there is. */
  lemma {:induction false} SkimmedBytes(views: seq<FdView>, seen: seq<FdView>)
    requires Skimmed(views, seen)
    ensures FdBytes(FdsOfClass(seen, FdDump)) <= FdBytes(FdsOfClass(views, FdDump))
  {
    if views != [] {
      hide ClassifyFd, FdRoom;
      var n := |views| - 1;
      if |seen| <= n {
        SkimmedBytes(views[..n], seen);
      } else {
        SkimmedBytes(views[..n], seen[..n]);
      }
      SkimmedLast(views, seen);
    }
  }

  lemma {:induction false} SkimmedLast(views: seq<FdView>, seen: seq<FdView>)
    requires views != [] && Skimmed(views, seen)
    ensures var n := |views| - 1;
      && FdBytes(FdsOfClass(views[..n], FdDump)) <= FdBytes(FdsOfClass(views, FdDump))
      && (|seen| == |views| ==>
            FdBytes(FdsOfClass(seen, FdDump)) - FdBytes(FdsOfClass(seen[..n], FdDump))
            <= FdBytes(FdsOfClass(views, FdDump)) - FdBytes(FdsOfClass(views[..n], FdDump)))
  {
    var n := |views| - 1;
    LastBytes(views);
    if |seen| == |views| {
      LastBytes(seen);
      LostLook(views[n]);
    }
  }

  lemma {:induction false} LastBytes(views: seq<FdView>)
    requires views != []
    ensures var n := |views| - 1;
      FdBytes(FdsOfClass(views, FdDump))
      == FdBytes(FdsOfClass(views[..n], FdDump)) + if ClassifyFd(views[n]) == FdDump then FdRoom(views[n]) else 0
  {
    hide ClassifyFd, FdRoom;
    var n := |views| - 1;
    FdBytesStep(FdsOfClass(views[..n], FdDump), views[n]);
    assert FdsOfClass(views[..n], FdDump) + [] == FdsOfClass(views[..n], FdDump);
  }

  lemma {:induction false} LostLook(v: FdView)
    ensures ClassifyFd(v.(byPath := None)) != FdDump
  {
  }

  /** A descriptor no dump can pass over: it is unreadable, or to be carried with its offset unknown. */
  predicate Stops(v: FdView) {
    ClassifyFd(v) == FdUnreadable || (ClassifyFd(v) == FdDump && v.info.None?)
  }

  /** The descriptors are such that a snapshot can carry them, after `used` bytes of other paths. */
  predicate Carryable(image: Image, used: nat) {
    (forall v :: v in image.fds ==> !Stops(v)) && used + FdBytes(FdsOfClass(image.fds, FdDump)) < TWO_32
  }

  method AddFd(host: Host, pool: Pool, fds: seq<Fd>, ghost views: seq<FdView>, v: FdView)
    returns (ok: bool, r: seq<Fd>)
    requires pool.Valid() && ClassifyFd(v) == FdDump && ViewOk(v)
    requires CarriesAll(fds, views, pool.Contents()) && Unlinked(fds)
    modifies pool, pool.data, host`denied
    ensures pool.Valid() && (pool.data == old(pool.data) || fresh(pool.data))
    ensures old(pool.Contents()) <= pool.Contents() && (old(host.denied) ==> host.denied)
    ensures ok ==> host.denied == old(host.denied) && pool.short == old(pool.short)
    ensures ok ==> CarriesAll(r, views + [v], pool.Contents()) && Unlinked(r)
    ensures ok ==> v.info.Some? && |pool.Contents()| == |old(pool.Contents())| + FdRoom(v)
    ensures !ok ==> host.denied || pool.short || v.info.None? || |old(pool.Contents())| + FdRoom(v) >= TWO_32
  {
    var roomForEntry := host.Try();
    if !roomForEntry || v.info.None? {
      return false, [];
    }
    var stored := AppendPath(pool, v.link.value);
    if !stored.At? {
      return false, [];
    }
    ok := true;
    CarriesAllKept(fds, views, old(pool.Contents()), pool.Contents());
    r := fds + [Fd(v.fd, -1, v.info.value.flags, stored.offset, |v.link.value|, v.info.value.position)];
  }

  /** Why an entry of the directory could not be collected. */
  ghost predicate EntryCause(whole: FdView, v: FdView, size: nat, failed: bool) {
    failed || v != whole || Stops(whole) || (ClassifyFd(whole) == FdDump && size + FdRoom(whole) >= TWO_32)
  }

  /** One entry of the directory; `v` is what the kernel answered, `whole` what there was to know. */
  method WalkEntry(host: Host, pool: Pool, fds: seq<Fd>, v: FdView, ghost whole: FdView, ghost views: seq<FdView>, ghost used: nat)
    returns (ok: bool, r: seq<Fd>)
    requires pool.Valid() && ViewOk(whole) && Blurred(whole, v) && FdProgress(fds, views, used, pool.Contents())
    modifies pool, pool.data, host`denied
    ensures pool.Valid() && (pool.data == old(pool.data) || fresh(pool.data))
    ensures old(pool.Contents()) <= pool.Contents() && (old(host.denied) ==> host.denied)
    ensures ok ==> host.denied == old(host.denied) && pool.short == old(pool.short)
    ensures ok ==> FdProgress(r, views + [Unnoticed(whole, v)], used, pool.Contents())
    ensures !ok ==> EntryCause(whole, v, |old(pool.Contents())|, host.denied || pool.short)
  {
    hide ClassifyFd, CarriesAll, FdRoom, FdProgress, FdsOfClass, FdBytes, Unlinked, Unnoticed, Blurred;
    var fdClass := ClassifyFd(v);
    if fdClass == FdUnreadable {
      return false, [];
    }
    LossUnnoticed(whole, v);
    ProgressParts(fds, views, used, pool.Contents());
    if fdClass != FdDump {
      ProgressPasses(fds, views, Unnoticed(whole, v), used, pool.Contents());
      return true, fds;
    }
    ghost var before := pool.Contents();
    BlurredOk(whole, v);
    ok, r := AddFd(host, pool, fds, FdsOfClass(views, FdDump), v);
    if ok {
      ProgressAdds(fds, r, views, v, used, before, pool.Contents());
    }
  }

  lemma {:induction false} BlurredOk(whole: FdView, v: FdView)
    requires ViewOk(whole) && Blurred(whole, v)
    ensures ViewOk(v)
  {
    hide ClassifyFd;
  }

  lemma {:induction false} ProgressParts(fds: seq<Fd>, views: seq<FdView>, used: nat, pool: seq<Byte>)
    requires FdProgress(fds, views, used, pool)
    ensures CarriesAll(fds, FdsOfClass(views, FdDump), pool) && Unlinked(fds)
  {
    hide CarriesAll, Unlinked;
  }

  lemma {:induction false} ProgressPasses(fds: seq<Fd>, views: seq<FdView>, v: FdView, used: nat, pool: seq<Byte>)
    requires FdProgress(fds, views, used, pool) && ClassifyFd(v) != FdDump && ClassifyFd(v) != FdUnreadable
    ensures FdProgress(fds, views + [v], used, pool)
  {
    hide CarriesAll, Unlinked, ClassifyFd, FdBytes;
    FdsOfClassLast(views, v, FdDump);
    FdsOfClassLast(views, v, FdUnreadable);
    assert FdsOfClass(views, FdDump) + [] == FdsOfClass(views, FdDump);
  }

  lemma {:induction false} ProgressAdds(fds: seq<Fd>, r: seq<Fd>, views: seq<FdView>, v: FdView, used: nat, pool: seq<Byte>, pool': seq<Byte>)
    requires FdProgress(fds, views, used, pool) && ClassifyFd(v) == FdDump
    requires CarriesAll(r, FdsOfClass(views, FdDump) + [v], pool') && Unlinked(r) && |pool'| == |pool| + FdRoom(v)
    ensures FdProgress(r, views + [v], used, pool')
  {
    hide CarriesAll, Unlinked, ClassifyFd, FdBytes, FdRoom;
    FdsOfClassLast(views, v, FdDump);
    FdsOfClassLast(views, v, FdUnreadable);
    FdBytesStep(FdsOfClass(views, FdDump), v);
  }

  /** An entry that stops the walk is a reason in the process as a whole, unless something failed. */
  lemma {:induction false} WalkStopped(image: Image, seen: seq<FdView>, v: FdView, used: nat, size: nat, failed: bool)
    requires |seen| < |image.fds| && Skimmed(image.fds, seen) && size == used + FdBytes(FdsOfClass(seen, FdDump))
    requires EntryCause(image.fds[|seen|], v, size, failed) && v == image.fds[|seen|]
    ensures failed || !Carryable(image, used)
  {
    hide ClassifyFd, FdRoom;
    var whole := image.fds[|seen|];
    assert whole in image.fds;
    if ClassifyFd(whole) == FdDump && size + FdRoom(whole) >= TWO_32 {
      var more := image.fds[..|seen| + 1];
      assert Skimmed(more, seen + [whole]);
      SkimmedBytes(image.fds, seen + [whole]);
      FdsOfClassLast(seen, whole, FdDump);
      FdBytesStep(FdsOfClass(seen, FdDump), whole);
    }
  }

  /**
   The walk over the descriptor directory, before the table is ordered. It goes
   on to the end, or to where reading broke off, and gives up only for a reason.
   */
  method WalkFds(host: Host, pool: Pool) returns (ok: bool, fds: seq<Fd>)
    requires pool.Valid() && FdsConsistent(host.image)
    modifies pool, pool.data, host`denied, host`seen, host`answers, host`brokeOff, host`answerLost
    ensures pool.Valid() && (pool.data == old(pool.data) || fresh(pool.data))
    ensures old(pool.Contents()) <= pool.Contents() && (old(host.denied) ==> host.denied)
    ensures host.WalkOk() && (ok ==> host.WalkDone() && host.denied == old(host.denied) && pool.short == old(pool.short))
    ensures ok ==> FdProgress(fds, host.seen, |old(pool.Contents())|, pool.Contents())
    ensures !ok ==> host.denied || pool.short || host.answerLost || !Carryable(host.image, |old(pool.Contents())|)
  {
    hide ClassifyFd, CarriesAll, FdProgress, Blurred, EntryCause, Carryable;
    ghost var used := |pool.Contents()|;
    fds := [];
    ok := host.OpenFds();
    if !ok {
      return false, [];
    }
    NoFdsYet(used, pool.Contents());
    while true
      invariant pool.Valid() && (pool.data == old(pool.data) || fresh(pool.data))
      invariant host.denied == old(host.denied) && pool.short == old(pool.short)
      invariant old(pool.Contents()) <= pool.Contents() && !host.brokeOff
      invariant host.WalkOk() && FdProgress(fds, host.seen, used, pool.Contents())
      decreases |host.image.fds| - |host.seen|
    {
      ghost var views, size := host.seen, |pool.Contents()|;
      var more, v := host.NextFd();
      if !more {
        break;
      }
      ghost var whole := host.image.fds[|views|];
      assert whole in host.image.fds;
      SizeSoFar(fds, views, used, pool.Contents());
      ok, fds := WalkEntry(host, pool, fds, v, whole, views, used);
      if !ok {
        if !host.answerLost {
          WalkStopped(host.image, views, v, used, size, host.denied || pool.short);
        }
        return false, [];
      }
    }
    ok := true;
  }

  lemma {:induction false} NoFdsYet(used: nat, pool: seq<Byte>)
    requires |pool| == used
    ensures FdProgress([], [], used, pool)
  {
  }

  lemma {:induction false} SizeSoFar(fds: seq<Fd>, views: seq<FdView>, used: nat, pool: seq<Byte>)
    requires FdProgress(fds, views, used, pool)
    ensures |pool| == used + FdBytes(FdsOfClass(views, FdDump))
  {
  }

  /** A process of which some descriptors were not seen is as consistent as the whole of it. */
  lemma {:induction false} SkimmedConsistent(image: Image, seen: seq<FdView>)
    requires FdsConsistent(image) && Skimmed(image.fds, seen)
    ensures FdsConsistent(image.(fds := seen))
  {
    hide NoNul;
    forall v | v in seen ensures ViewOk(v) && v.fd in image.fileOf {
      var i :| 0 <= i < |seen| && seen[i] == v;
      assert image.fds[i] in image.fds;
    }
    forall v, w | v in seen && w in seen && image.fileOf[v.fd] == image.fileOf[w.fd] ensures v.link == w.link {
      var i :| 0 <= i < |seen| && seen[i] == v;
      var j :| 0 <= j < |seen| && seen[j] == w;
      assert image.fds[i] in image.fds && image.fds[j] in image.fds;
    }
  }

  /** The table carries exactly the descriptors that can travel, in ascending order. */
  ghost predicate FdsCollected(image: Image, fds: seq<Fd>, pool: seq<Byte>) {
    && Sorted(fds)
    && |fds| == |FdsOfClass(image.fds, FdDump)|
    && (forall i :: 0 <= i < |fds| ==> FromSomeView(image, fds[i], pool))
    && (forall v :: v in image.fds && ClassifyFd(v) == FdDump ==> HasEntry(fds, v, pool))
  }

  ghost predicate FromSomeView(image: Image, e: Fd, pool: seq<Byte>) {
    exists v :: v in image.fds && Carries(e, v, pool)
  }

  ghost predicate HasEntry(fds: seq<Fd>, v: FdView, pool: seq<Byte>) {
    exists i :: 0 <= i < |fds| && Carries(fds[i], v, pool)
  }

  /** The first `done` entries are linked to the least descriptor of their file, the rest to none. */
  predicate FdsLinked(image: Image, fds: seq<Fd>, done: nat) {
    && done <= |fds|
    && (forall i :: 0 <= i < done ==> Canonical(image, fds, i))
    && (forall i :: done <= i < |fds| ==> fds[i].dupOf == -1)
  }

  lemma {:induction false} ClassDistinct(views: seq<FdView>, c: FdClass)
    requires forall i, j :: 0 <= i < j < |views| ==> views[i].fd != views[j].fd
    ensures forall i, j :: 0 <= i < j < |FdsOfClass(views, c)| ==> FdsOfClass(views, c)[i].fd != FdsOfClass(views, c)[j].fd
  {
    if views != [] {
      var shorter := views[..|views| - 1];
      ClassDistinct(shorter, c);
      forall i | 0 <= i < |FdsOfClass(shorter, c)|
        ensures FdsOfClass(shorter, c)[i].fd != views[|views| - 1].fd
      {
        FdsOfClassMember(shorter, c, FdsOfClass(shorter, c)[i]);
      }
    }
  }

  lemma {:induction false} SortedStillCarries(image: Image, fds: seq<Fd>, sorted: seq<Fd>, pool: seq<Byte>)
    requires CarriesAll(fds, FdsOfClass(image.fds, FdDump), pool)
    requires Sorted(sorted) && multiset(sorted) == multiset(fds) && |sorted| == |fds|
    ensures FdsCollected(image, sorted, pool)
  {
    var views := FdsOfClass(image.fds, FdDump);
    forall i | 0 <= i < |sorted| ensures FromSomeView(image, sorted[i], pool) {
      assert sorted[i] in multiset(fds);
      var k :| 0 <= k < |fds| && fds[k] == sorted[i];
      FdsOfClassMember(image.fds, FdDump, views[k]);
    }
    forall v | v in image.fds && ClassifyFd(v) == FdDump ensures HasEntry(sorted, v, pool) {
      FdsOfClassMember(image.fds, FdDump, v);
      var k :| 0 <= k < |views| && views[k] == v;
      assert fds[k] in multiset(sorted);
    }
  }

  lemma {:induction false} EntryComparable(image: Image, e: Fd, pool: seq<Byte>) returns (v: FdView)
    requires FdsConsistent(image) && FromSomeView(image, e, pool)
    ensures v in image.fds && v.fd == e.fd && v.fd in image.fileOf && e.fd > 2
    ensures e.pathOffset <= |pool| && v.link == Some(CString(pool, e.pathOffset))
  {
    v :| v in image.fds && Carries(e, v, pool);
    CStringIs(pool, e.pathOffset, v.link.value);
  }

  lemma {:induction false} CollectedComparable(image: Image, fds: seq<Fd>, pool: seq<Byte>)
    requires FdsConsistent(image) && FdsCollected(image, fds, pool)
    ensures Comparable(image, fds, pool)
    ensures forall i :: 0 <= i < |fds| ==> fds[i].fd > 2
  {
    forall i | 0 <= i < |fds| ensures fds[i].fd in image.fileOf && fds[i].pathOffset <= |pool| && fds[i].fd > 2 {
      var v := EntryComparable(image, fds[i], pool);
    }
    forall i, j | 0 <= i < |fds| && 0 <= j < |fds| && Shares(image, fds, i, j)
      ensures CString(pool, fds[i].pathOffset) == CString(pool, fds[j].pathOffset)
    {
      var v := EntryComparable(image, fds[i], pool);
      var w := EntryComparable(image, fds[j], pool);
      assert v.link == w.link;
    }
  }

  lemma {:induction false} RelinkedStillCollected(image: Image, before: seq<Fd>, after: seq<Fd>, pool: seq<Byte>)
    requires FdsCollected(image, before, pool) && Relinked(before, after)
    ensures FdsCollected(image, after, pool)
  {
    forall i | 0 <= i < |after| ensures FromSomeView(image, after[i], pool) {
      assert FromSomeView(image, before[i], pool);
      var v :| v in image.fds && Carries(before[i], v, pool);
      assert Carries(after[i], v, pool);
    }
    forall v | v in image.fds && ClassifyFd(v) == FdDump ensures HasEntry(after, v, pool) {
      assert HasEntry(before, v, pool);
      var i :| 0 <= i < |before| && Carries(before[i], v, pool);
      assert Carries(after[i], v, pool);
    }
  }

  method LinkFds(host: Host, sorted: seq<Fd>, pool: seq<Byte>) returns (fds: array<Fd>, ghost done: nat)
    requires FdsConsistent(host.Seen()) && FdsCollected(host.Seen(), sorted, pool) && Unlinked(sorted)
    modifies host`kcmpBroken
    ensures fresh(fds)
    ensures FdsCollected(host.Seen(), fds[..], pool) && FdsLinked(host.Seen(), fds[..], done)
    ensures !host.kcmpBroken ==> done == fds.Length
  {
    hide SamePath, FdsCollected, Comparable, Relinked, Canonical, FdsConsistent;
    CollectedComparable(host.Seen(), sorted, pool);
    fds := new Fd[|sorted|](i requires 0 <= i < |sorted| => sorted[i]);
    assert fds[..] == sorted;
    done := FindSharedFiles(host, fds, pool);
    RelinkedStillCollected(host.Seen(), sorted, fds[..], pool);
  }

  /**
   Collects, orders and links the table. If nothing was missed on the way, it is
   the table of all descriptors; and it gives up only for a reason.
   */
  method CollectFds(host: Host, pool: Pool) returns (ok: bool, fds: array<Fd>, ghost done: nat)
    requires pool.Valid() && FdsConsistent(host.image)
    modifies pool, pool.data, host`kcmpBroken, host`denied, host`seen, host`answers, host`brokeOff, host`answerLost
    ensures host.WalkOk() && (ok ==> host.WalkDone() && host.denied == old(host.denied) && pool.short == old(pool.short))
    ensures ok && host.SawAll() ==> host.seen == host.image.fds
    ensures pool.Valid() && (pool.data == old(pool.data) || fresh(pool.data)) && fresh(fds)
    ensures old(pool.Contents()) <= pool.Contents() && (old(host.denied) ==> host.denied)
    ensures ok ==> FdsCollected(host.Seen(), fds[..], pool.Contents()) && FdsLinked(host.Seen(), fds[..], done)
    ensures ok && !host.kcmpBroken ==> done == fds.Length
    ensures ok ==> |FdsOfClass(host.seen, FdUnreadable)| == 0 && Carryable(host.Seen(), |old(pool.Contents())|)
    ensures !ok ==> host.denied || pool.short || host.answerLost || !Carryable(host.image, |old(pool.Contents())|)
  {
    hide Carryable;
    var walked, entries := WalkFds(host, pool);
    if !walked {
      return false, new Fd[0], 0;
    }
    SkimmedConsistent(host.image, host.seen);
    WalkedCarryable(host.Seen(), entries, |old(pool.Contents())|, pool.Contents());
    ClassDistinct(host.seen, FdDump);
    var sorted := SortByNumber(entries);
    SortedStillCarries(host.Seen(), entries, sorted, pool.Contents());
    SortedUnlinked(entries, sorted);
    fds, done := LinkFds(host, sorted, pool.data[..pool.size]);
    ok := true;
  }

  /** What has been collected to the end could be carried. */
  lemma {:induction false} WalkedCarryable(image: Image, fds: seq<Fd>, used: nat, pool: seq<Byte>)
    requires FdProgress(fds, image.fds, used, pool) && |pool| < TWO_32
    ensures Carryable(image, used)
  {
    hide ClassifyFd, FdBytes, StringAt;
    forall v | v in image.fds ensures !Stops(v) {
      FdsOfClassMember(image.fds, FdUnreadable, v);
      FdsOfClassMember(image.fds, FdDump, v);
      if v in FdsOfClass(image.fds, FdDump) {
        var i :| 0 <= i < |fds| && FdsOfClass(image.fds, FdDump)[i] == v;
        assert Carries(fds[i], v, pool);
      }
    }
  }

  lemma {:induction false} SortedUnlinked(fds: seq<Fd>, sorted: seq<Fd>)
    requires multiset(sorted) == multiset(fds) && Unlinked(fds)
    ensures Unlinked(sorted)
  {
    forall i | 0 <= i < |sorted| ensures sorted[i].dupOf == -1 {
      assert sorted[i] in multiset(fds);
    }
  }
}
