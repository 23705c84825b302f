/** The mapping and descriptor counts a check reports before anything is written. */
module Checker {
  import opened Bytes
  import opened DumpFormat
  import opened Maps
  import opened Fds
  import opened Target

  datatype Reason = SharedMapping | DeviceMapping | TooManyKernelMaps | NoDumpableMapping | NotInspectable | Gone

  /** How opening the mapping list ended. */
  datatype Opening = Opened | NotPermitted | Vanished

  datatype Counters = Counters(dumpable: nat, kernel: nat, shared: nat, devices: nat, bytes: U64)

  datatype MapsReport = MapsReport(counters: Counters, reasons: seq<Reason>)

  datatype FdsReport = FdsReport(openFds: nat, volatileFds: nat, dumpableFds: nat)

  const DEV: seq<Byte> := [47, 100, 101, 118, 47] // "/dev/"

  predicate IsDevice(l: ParsedLine) {
    DEV <= l.path
  }

  lemma {:induction false} DevicesAre(l: ParsedLine)
    ensures IsDevice(l) <==> Begins(l.path, "/dev/")
  {
    assert Spells(DEV, "/dev/");
    SameName(DEV, "/dev/", l.path);
  }

  function Devices(lines: seq<ParsedLine>): nat {
    if lines == [] then 0 else Devices(lines[..|lines| - 1]) + (if IsDevice(lines[|lines| - 1]) then 1 else 0)
  }

  /** The counters over a listing: every class once, and the bytes of the copied mappings. */
  predicate Counted(n: Counters, lines: seq<RawLine>) {
    && n.dumpable == |OfClass(lines, VmaDump)|
    && n.kernel == |OfClass(lines, VmaKernel)|
    && n.shared == |OfClass(lines, VmaSkipShared)|
    && n.devices == Devices(OfClass(lines, VmaDump))
    && n.bytes == TotalSize(OfClass(lines, VmaDump)) % TWO_64
  }

  lemma {:induction false} CountDumped(n: Counters, lines: seq<RawLine>, i: nat)
    requires i < |lines| && Is(lines[i], VmaDump) && Counted(n, lines[..i])
    ensures Devices(OfClass(lines[..i + 1], VmaDump)) == n.devices + (if IsDevice(lines[i].line) then 1 else 0)
    ensures TotalSize(OfClass(lines[..i + 1], VmaDump)) % TWO_64 == Add64(n.bytes, lines[i].line.Size())
  {
    var before, l := OfClass(lines[..i], VmaDump), lines[i].line;
    OfClassStep(lines, i, VmaDump);
    assert (before + [l])[..|before|] == before;
    TotalSizeStep(before, l);
    AddWraps(TotalSize(before), l.Size());
  }

  method CountLine(n: Counters, lines: seq<RawLine>, i: nat) returns (m: Counters)
    requires i < |lines| && Counted(n, lines[..i])
    ensures Counted(m, lines[..i + 1])
  {
    OfClassStep(lines, i, VmaDump);
    OfClassStep(lines, i, VmaKernel);
    OfClassStep(lines, i, VmaSkipShared);
    if lines[i].Unparsable? {
      return n;
    }
    var parsed := lines[i].line;
    var vmaClass := ClassifyMapsLine(parsed);
    if vmaClass == VmaKernel {
      return n.(kernel := n.kernel + 1);
    }
    if vmaClass == VmaSkipShared {
      return n.(shared := n.shared + 1);
    }
    if vmaClass != VmaDump {
      return n;
    }
    CountDumped(n, lines, i);
    m := n;
    if DEV <= parsed.path {
      m := m.(devices := m.devices + 1);
    }
    m := m.(dumpable := m.dumpable + 1, bytes := Add64(m.bytes, parsed.Size()));
  }

  /** Each reason is reported exactly when its cause is in the listing. */
  ghost predicate ReasonsTrue(reasons: seq<Reason>, broken: bool, lines: seq<RawLine>) {
    && (Gone in reasons <==> broken)
    && NotInspectable !in reasons
    && (SharedMapping in reasons <==> |OfClass(lines, VmaSkipShared)| > 0)
    && (DeviceMapping in reasons <==> exists l :: l in OfClass(lines, VmaDump) && IsDevice(l))
    && (TooManyKernelMaps in reasons <==> |OfClass(lines, VmaKernel)| > MAX_KERNEL_MAPS)
    && (NoDumpableMapping in reasons <==> |OfClass(lines, VmaDump)| == 0)
  }

  const NOTHING: Counters := Counters(0, 0, 0, 0, 0)

  /** `broken` says that reading the listing failed after these lines. A listing that cannot be opened is the one reason given. */
  method ScanMaps(opening: Opening, lines: seq<RawLine>, broken: bool) returns (r: MapsReport)
    ensures opening == Opened ==> Counted(r.counters, lines) && ReasonsTrue(r.reasons, broken, lines)
    ensures opening != Opened ==> r == MapsReport(NOTHING, [if opening == NotPermitted then NotInspectable else Gone])
  {
    if opening == NotPermitted {
      return MapsReport(NOTHING, [NotInspectable]);
    }
    if opening == Vanished {
      return MapsReport(NOTHING, [Gone]);
    }
    var n := NOTHING;
    for i := 0 to |lines|
      invariant Counted(n, lines[..i])
    {
      n := CountLine(n, lines, i);
    }
    assert lines[..|lines|] == lines;
    DevicesFound(OfClass(lines, VmaDump));
    var reasons := MapsReasons(broken, n);
    r := MapsReport(n, reasons);
  }

  method MapsReasons(broken: bool, n: Counters) returns (reasons: seq<Reason>)
    ensures (Gone in reasons <==> broken) && NotInspectable !in reasons
    ensures SharedMapping in reasons <==> n.shared > 0
    ensures DeviceMapping in reasons <==> n.devices > 0
    ensures TooManyKernelMaps in reasons <==> n.kernel > MAX_KERNEL_MAPS
    ensures NoDumpableMapping in reasons <==> n.dumpable == 0
  {
    reasons := if broken then [Gone] else [];
    if n.shared > 0 {
      reasons := reasons + [SharedMapping];
    }
    if n.devices > 0 {
      reasons := reasons + [DeviceMapping];
    }
    if n.kernel > MAX_KERNEL_MAPS {
      reasons := reasons + [TooManyKernelMaps];
    }
    if n.dumpable == 0 {
      reasons := reasons + [NoDumpableMapping];
    }
  }

  lemma {:induction false} AddWraps(total: nat, size: U64)
    ensures Add64(total % TWO_64, size) == (total + size) % TWO_64
  {
  }

  lemma {:induction false} DevicesFound(lines: seq<ParsedLine>)
    ensures Devices(lines) > 0 <==> exists l :: l in lines && IsDevice(l)
  {
    if lines != [] {
      var last := lines[|lines| - 1];
      DevicesFound(lines[..|lines| - 1]);
      assert lines == lines[..|lines| - 1] + [last];
    }
  }

  /**
   Counts the descriptors it gets to see, on to the end of the directory or to
   where reading broke off. A directory that cannot be opened, an error while
   reading it, an answer that is lost: all of them only make it see less, and
   nothing says so.
   */
  method ScanFds(host: Host) returns (r: FdsReport)
    modifies host`denied, host`seen, host`answers, host`brokeOff, host`answerLost
    ensures host.WalkOk() && host.WalkDone() && (old(host.denied) ==> host.denied)
    ensures host.SawAll() ==> host.answers == host.image.fds
    ensures r.dumpableFds == |FdsOfClass(host.answers, FdDump)|
    ensures r.volatileFds == |FdsOfClass(host.answers, FdSkipVolatile)|
    ensures r.openFds == |host.answers| - |FdsOfClass(host.answers, FdSkipStdio)|
  {
    hide ClassifyFd;
    var openFds, volatile, dumpable := 0, 0, 0;
    var readable := host.OpenFds();
    if !readable {
      return FdsReport(0, 0, 0);
    }
    while true
      invariant host.WalkOk() && !host.brokeOff && (old(host.denied) ==> host.denied)
      invariant dumpable == |FdsOfClass(host.answers, FdDump)|
      invariant volatile == |FdsOfClass(host.answers, FdSkipVolatile)|
      invariant openFds == |host.answers| - |FdsOfClass(host.answers, FdSkipStdio)| >= 0
      decreases |host.image.fds| - |host.seen|
    {
      ghost var answers := host.answers;
      var more, v := host.NextFd();
      if !more {
        break;
      }
      FdsOfClassLast(answers, v, FdDump);
      FdsOfClassLast(answers, v, FdSkipVolatile);
      FdsOfClassLast(answers, v, FdSkipStdio);
      var fdClass := ClassifyFd(v);
      if fdClass == FdSkipStdio {
        continue;
      }
      openFds := openFds + 1;
      if fdClass == FdSkipVolatile {
        volatile := volatile + 1;
      } else if fdClass == FdDump {
        dumpable := dumpable + 1;
      }
    }
    r := FdsReport(openFds, volatile, dumpable);
  }
}
