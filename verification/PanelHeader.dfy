/** The panel's own decoder of the snapshot header, and its agreement with the engine's. */
module PanelHeader {
  import opened Bytes
  import opened DumpFormat
  import opened Layout

  // ----- unpacking by a format -----

  /** One item of a packed format: a byte string, or a little-endian unsigned number. */
  datatype Code = Chars(n: nat) | U4 | U8

  datatype Value = Text(bytes: seq<Byte>) | Number(n: nat)

  function Width(c: Code): nat {
    match c
    case Chars(n) => n
    case U4 => 4
    case U8 => 8
  }

  /** Where item `k` starts when items follow one another without padding. */
  function Start(fmt: seq<Code>, k: nat): nat
    requires k <= |fmt|
  {
    if k == 0 then 0 else Start(fmt, k - 1) + Width(fmt[k - 1])
  }

  function Decode(c: Code, raw: seq<Byte>): Value
    requires |raw| == Width(c)
  {
    if c.Chars? then Text(raw) else Number(UnLe(raw))
  }

  /** Consumes the bytes item by item, from the front. */
  function Unpack(fmt: seq<Code>, raw: seq<Byte>): (fields: seq<Value>)
    requires |raw| == Start(fmt, |fmt|)
    ensures |fields| == |fmt|
  {
    if fmt == [] then []
    else
      FrontWidth(fmt, |fmt|);
      [Decode(fmt[0], raw[..Width(fmt[0])])] + Unpack(fmt[1..], raw[Width(fmt[0])..])
  }

  lemma {:induction false} FrontWidth(fmt: seq<Code>, k: nat)
    requires 0 < k <= |fmt|
    ensures Start(fmt, k) == Width(fmt[0]) + Start(fmt[1..], k - 1)
  {
    if k > 1 {
      FrontWidth(fmt, k - 1);
    }
  }

  lemma {:induction false} StartWithin(fmt: seq<Code>, k: nat)
    requires k < |fmt|
    ensures Start(fmt, k) + Width(fmt[k]) <= Start(fmt, |fmt|)
    decreases |fmt| - k
  {
    if k + 1 < |fmt| {
      StartWithin(fmt, k + 1);
    }
  }

  lemma {:induction false} StartsAtZero(fmt: seq<Code>)
    ensures Start(fmt, 0) == 0
  {
  }

  lemma {:induction false} UnpackFront(fmt: seq<Code>, raw: seq<Byte>)
    requires fmt != [] && |raw| == Start(fmt, |fmt|)
    ensures Width(fmt[0]) <= |raw| && |raw| - Width(fmt[0]) == Start(fmt[1..], |fmt[1..]|)
    ensures Unpack(fmt, raw) == [Decode(fmt[0], raw[..Width(fmt[0])])] + Unpack(fmt[1..], raw[Width(fmt[0])..])
  {
    hide Decode;
    FrontWidth(fmt, |fmt|);
  }

  lemma {:induction false} DropSlice(raw: seq<Byte>, w: nat, from: nat, to: nat)
    requires from <= to && w + to <= |raw|
    ensures raw[w..][from..to] == raw[w + from..w + to]
  {
  }

  /** What stands where item `k` starts, if the bytes reach that far. */
  predicate StandsAt(v: Value, fmt: seq<Code>, raw: seq<Byte>, k: nat)
    requires k < |fmt|
  {
    var at, c := Start(fmt, k), fmt[k];
    at + Width(c) <= |raw| && v == Decode(c, raw[at..at + Width(c)])
  }

  lemma {:induction false} StandsInRest(v: Value, fmt: seq<Code>, raw: seq<Byte>, k: nat)
    requires 0 < k < |fmt| && Width(fmt[0]) <= |raw| && StandsAt(v, fmt[1..], raw[Width(fmt[0])..], k - 1)
    ensures StandsAt(v, fmt, raw, k)
  {
    hide Decode, Width;
    FrontWidth(fmt, k);
    var from, c := Start(fmt[1..], k - 1), fmt[k];
    DropSlice(raw, Width(fmt[0]), from, from + Width(c));
  }

  /** Item `k` of the result is what stands at its start. */
  lemma {:induction false} UnpackAt(fmt: seq<Code>, raw: seq<Byte>, k: nat)
    requires k < |fmt| && |raw| == Start(fmt, |fmt|)
    ensures StandsAt(Unpack(fmt, raw)[k], fmt, raw, k)
  {
    UnpackFront(fmt, raw);
    if k > 0 {
      hide Unpack, StandsAt, Start, Width, Decode;
      UnpackAt(fmt[1..], raw[Width(fmt[0])..], k - 1);
      StandsInRest(Unpack(fmt, raw)[k], fmt, raw, k);
    }
  }

  // ----- the header format -----

  const KERNEL_MAP: seq<Code> := [U8, U8, Chars(32)]

  const HEAD: seq<Code> := [Chars(8), U4, U4, U8, U8, U8, U8, U4, Chars(4096), U4]

  function Words(n: nat): (s: seq<Code>)
    ensures |s| == n && forall i :: 0 <= i < n ==> s[i] == U8
  {
    seq(n, _ => U8)
  }

  const FORMAT: seq<Code> :=
    HEAD + (KERNEL_MAP + KERNEL_MAP + KERNEL_MAP + KERNEL_MAP) + Words(27) + [U8, U4, U4] + [U8, U4, U4]

  const REGS_START: nat := 22
  const RIP_FIELD: nat := 16
  const RSP_FIELD: nat := 19

  lemma {:induction false} FormatItems()
    ensures |FORMAT| == 55
    ensures FORMAT[0] == Chars(8) && FORMAT[1] == U4 && FORMAT[2] == U4 && FORMAT[3] == U8 && FORMAT[4] == U8
    ensures FORMAT[5] == U8 && FORMAT[6] == U8 && FORMAT[7] == U4 && FORMAT[8] == Chars(4096) && FORMAT[9] == U4
    ensures forall i :: 0 <= i < 4 ==>
      FORMAT[10 + 3 * i] == U8 && FORMAT[11 + 3 * i] == U8 && FORMAT[12 + 3 * i] == Chars(32)
    ensures forall j :: 22 <= j < 49 ==> FORMAT[j] == U8
    ensures FORMAT[49] == U8 && FORMAT[50] == U4 && FORMAT[51] == U4
    ensures FORMAT[52] == U8 && FORMAT[53] == U4 && FORMAT[54] == U4
  {
  }

  lemma {:induction false} HeadStarts()
    ensures |FORMAT| == 55
    ensures Start(FORMAT, 1) == 8 && Start(FORMAT, 2) == 12 && Start(FORMAT, 7) == 48 && Start(FORMAT, 8) == 52
    ensures Start(FORMAT, 9) == 4148 && Start(FORMAT, 10) == 4152
  {
    FormatItems();
    assert Start(FORMAT, 1) == 8;
    assert Start(FORMAT, 2) == 12;
    assert Start(FORMAT, 3) == 16;
    assert Start(FORMAT, 4) == 24;
    assert Start(FORMAT, 5) == 32;
    assert Start(FORMAT, 6) == 40;
    assert Start(FORMAT, 7) == 48;
    assert Start(FORMAT, 8) == 52;
    assert Start(FORMAT, 9) == 4148;
  }

  lemma {:induction false} MapStarts(i: nat)
    requires i <= 4
    ensures |FORMAT| == 55 && Start(FORMAT, 10 + 3 * i) == 4152 + 48 * i
    ensures i < 4 ==> Start(FORMAT, 11 + 3 * i) == 4160 + 48 * i && Start(FORMAT, 12 + 3 * i) == 4168 + 48 * i
  {
    FormatItems();
    HeadStarts();
    if i > 0 {
      MapStarts(i - 1);
      assert FORMAT[12 + 3 * (i - 1)] == Chars(32);
    }
    if i < 4 {
      assert FORMAT[10 + 3 * i] == U8 && FORMAT[11 + 3 * i] == U8;
      assert Start(FORMAT, 11 + 3 * i) == 4160 + 48 * i;
    }
  }

  lemma {:induction false} RegStarts(i: nat)
    requires i <= 27
    ensures |FORMAT| == 55 && Start(FORMAT, 22 + i) == 4344 + 8 * i
  {
    FormatItems();
    if i == 0 {
      MapStarts(4);
    } else {
      RegStarts(i - 1);
      assert FORMAT[22 + (i - 1)] == U8;
    }
  }

  /** The format is as long as the struct, and its items start where the struct has its members. */
  lemma {:induction false} TailStarts()
    ensures |FORMAT| == 55 && Start(FORMAT, 50) == 4568 && Start(FORMAT, 53) == 4584 && Start(FORMAT, 55) == HEADER_SIZE
  {
    FormatItems();
    RegStarts(27);
    assert Start(FORMAT, 50) == 4568;
    assert Start(FORMAT, 51) == 4572;
    assert Start(FORMAT, 52) == 4576;
    assert Start(FORMAT, 53) == 4584;
    assert Start(FORMAT, 54) == 4588;
  }

  // ----- what the panel shows -----

  datatype MapView = MapView(name: seq<Byte>, start: nat, size: nat)

  datatype Panel = Panel(
    version: nat,
    vmaCount: nat,
    exePath: seq<Byte>,
    kernelMaps: seq<MapView>,
    rip: nat,
    rsp: nat,
    xstateSize: nat,
    fdCount: nat)

  datatype Failure = TooShort | NotASnapshot | OtherVersion

  datatype Outcome = Shown(panel: Panel) | Refused(why: Failure)

  /** The engine's reading of the same header, as the panel would show it. */
  function PanelOf(h: Header): Panel
    requires h.Shaped()
  {
    Panel(h.version, h.vmaCount,
          UpToNul(if h.exePathLen < PATH_MAX then h.exePath[..h.exePathLen] else h.exePath),
          MapViews(h), h.regs[16], h.regs[19], h.xstateSize, h.fdCount)
  }

  function MapViews(h: Header): seq<MapView>
    requires h.Shaped()
  {
    var count := if h.kernelMapCount < MAX_KERNEL_MAPS then h.kernelMapCount else MAX_KERNEL_MAPS;
    seq(count, i requires 0 <= i < count => MapView(UpToNul(h.kernelMaps[i].name), h.kernelMaps[i].start, h.kernelMaps[i].size))
  }

  lemma {:induction false} TextField(raw: seq<Byte>, k: nat, at: nat, n: nat)
    requires |raw| == HEADER_SIZE == Start(FORMAT, |FORMAT|)
    requires k < |FORMAT| && FORMAT[k] == Chars(n) && Start(FORMAT, k) == at
    ensures at + n <= |raw| && Unpack(FORMAT, raw)[k] == Text(raw[at..at + n])
  {
    hide Unpack;
    UnpackAt(FORMAT, raw, k);
  }

  lemma {:induction false} NumberField(raw: seq<Byte>, k: nat, at: nat)
    requires |raw| == HEADER_SIZE == Start(FORMAT, |FORMAT|)
    requires k < |FORMAT| && (FORMAT[k] == U4 || FORMAT[k] == U8) && Start(FORMAT, k) == at
    ensures at + Width(FORMAT[k]) <= |raw|
    ensures Unpack(FORMAT, raw)[k] == Number(if FORMAT[k] == U4 then U32At(raw, at) else U64At(raw, at))
  {
    hide Unpack;
    UnpackAt(FORMAT, raw, k);
  }

  /** The fields the panel uses, by the two ways of finding them. */
  ghost predicate FieldsAgree(fields: seq<Value>, h: Header)
    requires h.Shaped()
  {
    && |fields| == 55
    && fields[0] == Text(h.magic) && fields[1] == Number(h.version) && fields[2] == Number(h.vmaCount)
    && fields[7] == Number(h.exePathLen) && fields[8] == Text(h.exePath) && fields[9] == Number(h.kernelMapCount)
    && (forall i :: 0 <= i < 4 ==> MapAgrees(fields, h.kernelMaps[i], i))
    && fields[REGS_START + RIP_FIELD] == Number(h.regs[16]) && fields[REGS_START + RSP_FIELD] == Number(h.regs[19])
    && fields[REGS_START + 27 + 1] == Number(h.xstateSize) && fields[REGS_START + 27 + 4] == Number(h.fdCount)
  }

  predicate MapAgrees(fields: seq<Value>, k: KernelMap, i: nat)
    requires i < 4 && |fields| == 55
  {
    fields[10 + i * 3] == Number(k.start) && fields[11 + i * 3] == Number(k.size) && fields[12 + i * 3] == Text(k.name)
  }

  lemma {:induction false} MapField(raw: seq<Byte>, i: nat)
    requires |raw| == HEADER_SIZE == Start(FORMAT, |FORMAT|) && i < 4
    ensures |Unpack(FORMAT, raw)| == 55 && MapAgrees(Unpack(FORMAT, raw), KernelMapAt(raw, 4152 + 48 * i), i)
  {
    hide Unpack, FORMAT;
    FormatItems();
    MapStarts(i);
    NumberField(raw, 10 + 3 * i, 4152 + 48 * i);
    NumberField(raw, 11 + 3 * i, 4160 + 48 * i);
    TextField(raw, 12 + 3 * i, 4168 + 48 * i, 32);
  }

  /** On any bytes: consuming the header item by item finds what the struct has at its member offsets. */
  lemma {:induction false} DecodersAgree(raw: seq<Byte>)
    requires |raw| == HEADER_SIZE
    ensures Start(FORMAT, |FORMAT|) == HEADER_SIZE && FieldsAgree(Unpack(FORMAT, raw), HeaderAt(raw))
  {
    hide Unpack, FORMAT, U32At, U64At, KernelMapAt;
    FormatItems();
    HeadStarts();
    TailStarts();
    RegStarts(16);
    RegStarts(19);
    TextField(raw, 0, 0, 8);
    NumberField(raw, 1, 8);
    NumberField(raw, 2, 12);
    NumberField(raw, 7, 48);
    TextField(raw, 8, 52, 4096);
    NumberField(raw, 9, 4148);
    NumberField(raw, 38, 4472);
    NumberField(raw, 41, 4496);
    NumberField(raw, 50, 4568);
    NumberField(raw, 53, 4584);
    forall i | 0 <= i < 4 ensures MapAgrees(Unpack(FORMAT, raw), HeaderAt(raw).kernelMaps[i], i) {
      MapField(raw, i);
    }
  }

  /** The kernel mappings of the header; the count is clamped to what the format holds. */
  method ReadMapViews(fields: seq<Value>, ghost h: Header) returns (maps: seq<MapView>)
    requires h.Shaped() && FieldsAgree(fields, h)
    ensures maps == MapViews(h)
  {
    hide UpToNul;
    var mapCount := fields[9].n;
    maps := [];
    for i := 0 to if mapCount < MAX_KERNEL_MAPS then mapCount else MAX_KERNEL_MAPS
      invariant |maps| == i
      invariant forall k :: 0 <= k < i ==>
        maps[k] == MapView(UpToNul(h.kernelMaps[k].name), h.kernelMaps[k].start, h.kernelMaps[k].size)
    {
      assert MapAgrees(fields, h.kernelMaps[i], i);
      maps := maps + [MapView(UpToNul(fields[12 + i * 3].bytes), fields[10 + i * 3].n, fields[11 + i * 3].n)];
    }
  }

  /** Reads the header of a snapshot file for the panel. */
  method ReadHeader(file: seq<Byte>) returns (r: Outcome)
    ensures |file| < HEADER_SIZE ==> r == Refused(TooShort)
    ensures |file| >= HEADER_SIZE ==>
      var h := HeaderAt(file[..HEADER_SIZE]);
      r == if h.magic != MAGIC then Refused(NotASnapshot)
           else if h.version != FORMAT_VERSION then Refused(OtherVersion)
           else Shown(PanelOf(h))
  {
    hide Unpack, HeaderAt, FORMAT, MapViews, UpToNul, MapAgrees;
    var raw := if |file| < HEADER_SIZE then file else file[..HEADER_SIZE];
    if |raw| < HEADER_SIZE {
      return Refused(TooShort);
    }
    DecodersAgree(raw);
    var fields := Unpack(FORMAT, raw);
    if fields[0].bytes != MAGIC {
      return Refused(NotASnapshot);
    }
    var version := fields[1].n;
    if version != FORMAT_VERSION {
      return Refused(OtherVersion);
    }
    var pathLen := fields[7].n;
    var maps := ReadMapViews(fields, HeaderAt(raw));
    var path := fields[8].bytes;
    var exePath := UpToNul(if pathLen < |path| then path[..pathLen] else path);
    r := Shown(Panel(version, fields[2].n, exePath, maps, fields[REGS_START + RIP_FIELD].n,
                     fields[REGS_START + RSP_FIELD].n, fields[REGS_START + 27 + 1].n, fields[REGS_START + 27 + 4].n));
  }

  /** What the panel has to show of a snapshot with these parts. */
  function Shows(p: Parts): Panel
    requires p.Valid()
  {
    Panel(FORMAT_VERSION, |p.vmas|, p.exe,
          seq(|p.kernelMaps|, i requires 0 <= i < |p.kernelMaps| =>
            MapView(UpToNul(p.kernelMaps[i].name), p.kernelMaps[i].start, p.kernelMaps[i].size)),
          p.regs[16], p.regs[19], |p.xstate|, |p.fds|)
  }

  /** For every snapshot the engine writes, the panel shows what was written. */
  lemma {:induction false} WrittenIsShown(p: Parts, raw: seq<Byte>, h: Header)
    requires p.Valid() && NoNul(p.exe) && h == HeaderOf(p)
    requires |raw| == HEADER_SIZE && Holds(raw, 0, HeaderBytes(h))
    ensures HeaderAt(raw).magic == MAGIC && PanelOf(HeaderAt(raw)) == Shows(p)
  {
    hide HeaderBytes, HeaderAt;
    HeaderRoundTrip(raw, h);
    UpToNulStops(p.exe, []);
    assert h.exePath[..h.exePathLen] == p.exe && p.exe + [] == p.exe;
    assert PanelOf(h).kernelMaps == Shows(p).kernelMaps;
  }
}
