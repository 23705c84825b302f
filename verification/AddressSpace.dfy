/** The memory of the traced child, and what each injected system call does to it. */
module AddressSpace {
  import opened Bytes
  import opened DumpFormat

  datatype Cell = Cell(value: Byte, prot: nat)

  /** A named mapping of the child, as its mapping list shows it. */
  datatype Line = Line(name: seq<Byte>, start: nat, size: nat)

  datatype Space = Space(cells: map<int, Cell>, lines: set<Line>)

  const PAGE: nat := 4096

  predicate In(a: int, start: int, size: int) {
    start <= a < start + size
  }

  /** Two ranges share no address. */
  predicate Apart(start: int, size: int, start': int, size': int) {
    start + size <= start' || start' + size' <= start
  }

  /** The addresses of a range. */
  function Range(start: int, size: nat): (r: set<int>)
    ensures forall a :: a in r <==> In(a, start, size)
  {
    set a: int | start <= a < start + size && In(a, start, size)
  }

  predicate AllIn(s: Space, start: int, size: int) {
    forall a :: start <= a < start + size ==> a in s.cells
  }

  function RoundUp(n: nat): nat {
    (n + (PAGE - 1)) / PAGE * PAGE
  }

  lemma {:induction false} RoundUpPages(n: nat)
    requires n % PAGE == 0
    ensures RoundUp(n) == n
  {
  }

  // ----- effects -----

  /** What is left of a line when a range is unmapped. */
  function Pieces(l: Line, start: nat, size: nat): set<Line> {
    if Apart(l.start, l.size, start, size) then {l}
    else
      (if l.start < start then {Line(l.name, l.start, start - l.start)} else {})
      + (if start + size < l.start + l.size
         then {Line(l.name, start + size, l.start + l.size - (start + size))} else {})
  }

  function Punched(lines: set<Line>, start: nat, size: nat): set<Line> {
    set l, p | l in lines && p in Pieces(l, start, size) :: p
  }

  /** A line clear of the range stays. */
  lemma {:induction false} PunchKeeps(lines: set<Line>, start: nat, size: nat, l: Line)
    requires l in lines && Apart(l.start, l.size, start, size)
    ensures l in Punched(lines, start, size)
  {
    assert l in Pieces(l, start, size);
  }

  /** A fresh zeroed mapping replaces whatever was in the range. */
  function MapFixed(s: Space, start: nat, size: nat, prot: nat): Space {
    Space(s.cells + (map a | a in Range(start, size) :: Cell(0, prot)), Punched(s.lines, start, size))
  }

  function Protect(s: Space, start: nat, size: nat, prot: nat): Space {
    s.(cells := map a | a in s.cells :: if In(a, start, size) then s.cells[a].(prot := prot) else s.cells[a])
  }

  /** The part of a line inside a moved range, at its new place. */
  function Shifted(l: Line, from: nat, size: nat, to: nat): set<Line> {
    if Apart(l.start, l.size, from, size) then {}
    else
      var low := if l.start < from then from else l.start;
      var high := if l.start + l.size < from + size then l.start + l.size else from + size;
      if low < high then {Line(l.name, low - from + to, high - low)} else {}
  }

  function Carried(lines: set<Line>, from: nat, size: nat, to: nat): set<Line> {
    set l, p | l in lines && p in Shifted(l, from, size, to) :: p
  }

  /** Moves a mapped range; whatever was at the destination is unmapped. */
  function Move(s: Space, from: nat, size: nat, to: nat): Space
    requires AllIn(s, from, size) && Apart(from, size, to, size)
  {
    Space(
      (map a | a in s.cells && !In(a, from, size) && !In(a, to, size) :: s.cells[a])
      + (map a | a in Range(to, size) :: s.cells[from + (a - to)]),
      Punched(Punched(s.lines, to, size), from, size) + Carried(Punched(s.lines, to, size), from, size, to))
  }

  /** The bytes at `at` overwritten, without regard to protection. */
  function Overlay(s: Space, at: int, bytes: seq<Byte>): Space {
    s.(cells := map a | a in s.cells :: if In(a, at, |bytes|) then s.cells[a].(value := bytes[a - at]) else s.cells[a])
  }

  function BytesAt(s: Space, at: int, n: nat): (bytes: seq<Byte>)
    requires AllIn(s, at, n)
    ensures |bytes| == n
    ensures forall k :: 0 <= k < n ==> bytes[k] == s.cells[at + k].value
  {
    if n == 0 then []
    else
      assert In(at + n - 1, at, n);
      BytesAt(s, at, n - 1) + [s.cells[at + n - 1].value]
  }

  /** Both bytes of an instruction at `at` may be executed. */
  predicate Executable(s: Space, at: int) {
    && at in s.cells && at + 1 in s.cells
    && HasBit(s.cells[at].prot, PROT_EXEC) && HasBit(s.cells[at + 1].prot, PROT_EXEC)
  }

  // ----- the injected instruction -----

  /** The opcode of the system call instruction. */
  const OPCODE: seq<Byte> := [0x0F, 0x05]

  /** The low two bytes of a little-endian word replaced by the opcode, the other six kept. */
  function PlantWord(word: U64): U64 {
    word - word % 0x1_0000 + 0x050F
  }

  lemma {:induction false} FirstByte(b: Byte, rest: nat)
    ensures (b + 256 * rest) % 256 == b && (b + 256 * rest) / 256 == rest
  {
  }

  lemma {:induction false} LeUnLe(s: seq<Byte>)
    ensures Le(UnLe(s), |s|) == s
  {
    if s != [] {
      var rest := UnLe(s[1..]);
      FirstByte(s[0], rest);
      assert UnLe(s) == s[0] + 256 * rest;
      assert Le(UnLe(s), |s|) == [s[0]] + Le(rest, |s| - 1);
      hide Le, UnLe;
      LeUnLe(s[1..]);
      assert s == [s[0]] + s[1..];
    }
  }

  lemma {:induction false} PlantedBytes(code: seq<Byte>)
    requires |code| == 8
    ensures UnLe(code) < TWO_64
    ensures Le(PlantWord(UnLe(code)), 8) == OPCODE + code[2..]
  {
    PowWords();
    var rest := UnLe(code[2..]);
    assert code[1..][1..] == code[2..];
    assert UnLe(code[1..]) == code[1] + 256 * rest;
    assert UnLe(code) == code[0] + 256 * UnLe(code[1..]);
    PlantedWord(code[0], code[1], rest, UnLe(code));
    LeUnLe(code[2..]);
    LeTwo(0x0F, 0x05, rest);
  }

  lemma {:induction false} PlantedWord(b0: Byte, b1: Byte, rest: nat, word: nat)
    requires word == b0 + 256 * (b1 + 256 * rest) && word < TWO_64
    ensures PlantWord(word) == 0x0F + 256 * (0x05 + 256 * rest)
  {
    assert word % 0x1_0000 == b0 + 256 * b1;
  }

  lemma {:induction false} LeTwo(b0: Byte, b1: Byte, rest: nat)
    ensures Le(b0 + 256 * (b1 + 256 * rest), 8) == [b0, b1] + Le(rest, 6)
  {
    var tail := b1 + 256 * rest;
    assert tail % 256 == b1 && tail / 256 == rest;
    assert Le(tail, 7) == [b1] + Le(rest, 6);
    assert (b0 + 256 * tail) % 256 == b0 && (b0 + 256 * tail) / 256 == tail;
  }

  /** The space with the opcode planted at `at`. */
  function Planted(s: Space, at: int): Space {
    Overlay(s, at, OPCODE)
  }

  lemma {:induction false} PlantedIs(s: Space, at: int)
    requires AllIn(s, at, 8)
    ensures Overlay(s, at, OPCODE + BytesAt(s, at, 8)[2..]) == Planted(s, at)
  {
  }

  // ----- what is left when the code could not be put back -----

  /** A byte as it was, or the byte of the opcode left standing at `at` when an instruction was lost. */
  predicate ByteKept(b: Byte, b': Byte, a: int, at: int, lost: bool) {
    b' == b || (lost && a == at && b' == OPCODE[0]) || (lost && a == at + 1 && b' == OPCODE[1])
  }

  predicate CellKept(c: Cell, c': Cell, a: int, at: int, lost: bool) {
    c'.prot == c.prot && ByteKept(c.value, c'.value, a, at, lost)
  }

  /** The same memory, or the same with the opcode left standing at `at`. */
  ghost predicate Left(s: Space, s': Space, at: int, lost: bool) {
    s' == s || (lost && s' == Planted(s, at))
  }

  lemma {:induction false} PlantedTwice(s: Space, at: int)
    ensures Planted(Planted(s, at), at) == Planted(s, at)
  {
  }

  lemma {:induction false} LeftAgain(s: Space, s': Space, s'': Space, at: int, lost: bool, lost': bool)
    requires Left(s, s', at, lost) && Left(s', s'', at, lost') && (lost ==> lost')
    ensures Left(s, s'', at, lost')
  {
    PlantedTwice(s, at);
  }

  lemma {:induction false} LeftExecutable(s: Space, s': Space, at: int, lost: bool)
    requires Left(s, s', at, lost)
    ensures s'.lines == s.lines && s'.cells.Keys == s.cells.Keys
    ensures Executable(s', at) <==> Executable(s, at)
  {
  }

  // ----- frames: what a call leaves after the attempt to put its instruction back -----

  /** The space after the call left `mid` and the code `code` was put back, or was not. */
  function AfterCall(mid: Space, at: int, code: seq<Byte>, putBack: bool): Space {
    if putBack then Overlay(mid, at, code) else mid
  }

  /** `s'` is `s` outside the range, and freshly mapped with every right inside it. */
  ghost predicate Remapped(s: Space, s': Space, start: int, size: nat, at: int, lost: bool) {
    && (forall a :: !In(a, start, size) ==> (a in s'.cells <==> a in s.cells))
    && (forall a :: !In(a, start, size) && a in s.cells ==> CellKept(s.cells[a], s'.cells[a], a, at, lost))
    && (forall a :: In(a, start, size) ==> a in s'.cells && s'.cells[a].prot == PROT_RWX)
  }

  /** Only the protection inside the range differs. */
  ghost predicate Reprotected(s: Space, s': Space, start: int, size: nat, prot: nat, at: int, lost: bool) {
    && s'.lines == s.lines
    && s'.cells.Keys == s.cells.Keys
    && (forall a :: a in s.cells ==>
          && s'.cells[a].prot == (if In(a, start, size) then prot else s.cells[a].prot)
          && ByteKept(s.cells[a].value, s'.cells[a].value, a, at, lost))
  }

  lemma {:induction false} MapFrame(s: Space, at: int, start: nat, size: nat, putBack: bool)
    requires AllIn(s, at, 8)
    ensures var s' := AfterCall(MapFixed(Planted(s, at), start, size, PROT_RWX), at, BytesAt(s, at, 8), putBack);
      Remapped(s, s', start, size, at, !putBack) && s'.lines == Punched(s.lines, start, size)
  {
  }

  lemma {:induction false} ProtectFrame(s: Space, at: int, start: nat, size: nat, prot: nat, putBack: bool)
    requires AllIn(s, at, 8)
    ensures var s' := AfterCall(Protect(Planted(s, at), start, size, prot), at, BytesAt(s, at, 8), putBack);
      Reprotected(s, s', start, size, prot, at, !putBack)
  {
  }

  lemma {:induction false} PlantedAt(s: Space, at: int, a: int)
    ensures a in Planted(s, at).cells <==> a in s.cells
    ensures a in s.cells ==>
      Planted(s, at).cells[a] == if In(a, at, 2) then s.cells[a].(value := OPCODE[a - at]) else s.cells[a]
    ensures Planted(s, at).lines == s.lines
  {
  }

  lemma {:induction false} MovedAt(s: Space, from: nat, size: nat, to: nat, a: int)
    requires AllIn(s, from, size) && Apart(from, size, to, size)
    ensures var t := Move(s, from, size, to);
      && (In(a, to, size) ==> a in t.cells && from + (a - to) in s.cells && t.cells[a] == s.cells[from + (a - to)])
      && (In(a, from, size) ==> a !in t.cells)
      && (!In(a, to, size) && !In(a, from, size) ==> (a in t.cells <==> a in s.cells) && (a in s.cells ==> t.cells[a] == s.cells[a]))
  {
    hide Punched, Carried;
    if In(a, to, size) {
      assert In(from + (a - to), from, size);
    }
  }

  /** The opcode planted before a move that is clear of it stands there after the move, and nothing else differs. */
  lemma {:induction false} MovePlanted(s: Space, at: int, from: nat, size: nat, to: nat)
    requires AllIn(Planted(s, at), from, size) && Apart(from, size, to, size)
    requires Apart(at, 8, from, size) && Apart(at, 8, to, size)
    ensures AllIn(s, from, size)
    ensures Move(Planted(s, at), from, size, to) == Planted(Move(s, from, size, to), at)
  {
    assert AllIn(s, from, size) by {
      forall a | In(a, from, size) ensures a in s.cells { assert a in Planted(s, at).cells; }
    }
    var moved, got := Move(s, from, size, to), Move(Planted(s, at), from, size, to);
    assert got.lines == Planted(moved, at).lines;
    hide Move, Planted;
    forall a ensures a in got.cells <==> a in Planted(moved, at).cells
             ensures a in got.cells ==> got.cells[a] == Planted(moved, at).cells[a]
    {
      PlantedAt(moved, at, a);
      PlantedAt(s, at, a);
      PlantedAt(s, at, from + (a - to));
      MovedAt(s, from, size, to, a);
      MovedAt(Planted(s, at), from, size, to, a);
    }
    assert got.cells == Planted(moved, at).cells;
  }

  lemma {:induction false} MoveSameCode(s: Space, at: int, from: nat, size: nat, to: nat)
    requires AllIn(s, at, 8) && AllIn(s, from, size) && Apart(from, size, to, size)
    requires Apart(at, 8, from, size) && Apart(at, 8, to, size)
    ensures AllIn(Move(s, from, size, to), at, 8)
    ensures BytesAt(Move(s, from, size, to), at, 8) == BytesAt(s, at, 8)
  {
    hide Punched, Carried;
    forall a | In(a, at, 8) ensures a in Move(s, from, size, to).cells && Move(s, from, size, to).cells[a] == s.cells[a] {
    }
  }

  lemma {:induction false} MoveFrame(s: Space, at: int, from: nat, size: nat, to: nat, putBack: bool)
    requires AllIn(s, at, 8) && AllIn(Planted(s, at), from, size) && Apart(from, size, to, size)
    requires Apart(at, 8, from, size) && Apart(at, 8, to, size)
    ensures AllIn(s, from, size)
    ensures var s' := AfterCall(Move(Planted(s, at), from, size, to), at, BytesAt(s, at, 8), putBack);
      s' == if putBack then Move(s, from, size, to) else Planted(Move(s, from, size, to), at)
  {
    hide Move, BytesAt;
    MovePlanted(s, at, from, size, to);
    MoveSameCode(s, at, from, size, to);
    PutBackFrame(Move(s, from, size, to), at, putBack);
  }

  lemma {:induction false} PutBackFrame(s: Space, at: int, putBack: bool)
    requires AllIn(s, at, 8)
    ensures AfterCall(Planted(s, at), at, BytesAt(s, at, 8), putBack) == if putBack then s else Planted(s, at)
  {
    var got := Overlay(Planted(s, at), at, BytesAt(s, at, 8));
    assert got.cells.Keys == s.cells.Keys;
  }
}
