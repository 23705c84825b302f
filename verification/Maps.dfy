/** Lines of a process's mapping list, and what the engine does with each. */
module Maps {
  import opened Bytes
  import opened DumpFormat

  /** One parsed line. `privileges` is the four-letter field, such as "rw-p". */
  datatype MapsLine = MapsLine(start: U64, end: U64, fileOffset: U64, privileges: string, path: seq<Byte>)
  {
    /** What the line parser guarantees of every line it accepts. */
    predicate Parsable() {
      && |privileges| == 4
      && start < end
      && |path| < PATH_MAX
      && NoNul(path)
    }

    function Size(): nat
      requires start <= end
    {
      end - start
    }
  }

  type ParsedLine = l: MapsLine | l.Parsable()
    witness MapsLine(0, 1, 0, "r--p", [])

  /** A line of the listing as read: the parser may not make sense of it. */
  datatype RawLine = Unparsable | Parsed(line: ParsedLine)

  datatype VmaClass = VmaDump | VmaKernel | VmaSkipUnreadable | VmaSkipShared | VmaSkipPseudo

  const VDSO: seq<Byte> := [91, 118, 100, 115, 111, 93] // "[vdso]"
  const VVAR: seq<Byte> := [91, 118, 118, 97, 114] // "[vvar"
  const HEAP: seq<Byte> := [91, 104, 101, 97, 112, 93] // "[heap]"
  const STACK: seq<Byte> := [91, 115, 116, 97, 99, 107, 93] // "[stack]"
  const BRACKET: Byte := 91 // "["

  const MAP_SHARED: nat := 1
  const MAP_PRIVATE: nat := 2

  predicate IsKernelMap(path: seq<Byte>) {
    path == VDSO || VVAR <= path
  }

  predicate IsDumpablePath(path: seq<Byte>) {
    // a bracketed name is a pseudo mapping; of those only two carry process state
    (path == [] || path[0] != BRACKET) || path == HEAP || path == STACK
  }

  function ClassifyMapsLine(l: ParsedLine): VmaClass {
    if IsKernelMap(l.path) then VmaKernel
    else if l.privileges[0] != 'r' then VmaSkipUnreadable
    else if l.privileges[3] != 'p' then VmaSkipShared
    else if !IsDumpablePath(l.path) then VmaSkipPseudo
    else VmaDump
  }

  function PermsToProt(privileges: string): (prot: U32)
    requires |privileges| == 4
    ensures prot <= PROT_RWX
  {
    (if privileges[0] == 'r' then PROT_READ else 0)
    + (if privileges[1] == 'w' then PROT_WRITE else 0)
    + (if privileges[2] == 'x' then PROT_EXEC else 0)
  }

  function PermsToMapFlags(privileges: string): U32
    requires |privileges| == 4
  {
    if privileges[3] == 'p' then MAP_PRIVATE else MAP_SHARED
  }

  predicate Is(raw: RawLine, c: VmaClass) {
    raw.Parsed? && ClassifyMapsLine(raw.line) == c
  }

  /** The lines of one class, in listing order. */
  function OfClass(lines: seq<RawLine>, c: VmaClass): seq<ParsedLine>
  {
    if lines == [] then []
    else
      var last := lines[|lines| - 1];
      OfClass(lines[..|lines| - 1], c) + (if Is(last, c) then [last.line] else [])
  }

  function TotalSize(lines: seq<ParsedLine>): nat
  {
    if lines == [] then 0 else TotalSize(lines[..|lines| - 1]) + lines[|lines| - 1].Size()
  }

  lemma {:induction false} OfClassStep(lines: seq<RawLine>, i: nat, c: VmaClass)
    requires i < |lines|
    ensures OfClass(lines[..i + 1], c)
         == if Is(lines[i], c) then OfClass(lines[..i], c) + [lines[i].line] else OfClass(lines[..i], c)
  {
    assert lines[..i + 1][..i] == lines[..i];
    assert OfClass(lines[..i], c) + [] == OfClass(lines[..i], c);
  }

  lemma {:induction false} OfClassBounded(lines: seq<RawLine>, i: nat, c: VmaClass)
    requires i <= |lines|
    ensures |OfClass(lines[..i], c)| <= i
    ensures OfClass(lines[..i], c) <= OfClass(lines, c)
    decreases |lines| - i, i
  {
    if i < |lines| {
      OfClassStep(lines, i, c);
      OfClassBounded(lines, i + 1, c);
    }
    if i == |lines| {
      assert lines[..i] == lines;
    }
    OfClassShort(lines[..i], c);
  }

  lemma {:induction false} OfClassShort(lines: seq<RawLine>, c: VmaClass)
    ensures |OfClass(lines, c)| <= |lines|
  {
    if lines != [] {
      OfClassShort(lines[..|lines| - 1], c);
    }
  }

  lemma {:induction false} OfClassMember(lines: seq<RawLine>, c: VmaClass, k: nat)
    requires k < |OfClass(lines, c)|
    ensures ClassifyMapsLine(OfClass(lines, c)[k]) == c
    ensures Parsed(OfClass(lines, c)[k]) in lines
  {
    var shorter := lines[..|lines| - 1];
    if k < |OfClass(shorter, c)| {
      OfClassMember(shorter, c, k);
    } else {
      assert lines[|lines| - 1] in lines;
    }
  }

  lemma {:induction false} TotalSizeStep(lines: seq<ParsedLine>, l: ParsedLine)
    ensures TotalSize(lines + [l]) == TotalSize(lines) + l.Size()
  {
    assert (lines + [l])[..|lines|] == lines;
  }

  lemma {:induction false} NamesSpelt()
    ensures Spells(VDSO, "[vdso]") && Spells(VVAR, "[vvar") && Spells(HEAP, "[heap]") && Spells(STACK, "[stack]")
  {
  }

  /** The mappings the kernel itself puts there, by name. */
  predicate NamedByKernel(path: seq<Byte>) {
    Spells(path, "[vdso]") || Begins(path, "[vvar")
  }

  /** A bracketed name that carries process state: the heap and the stack. Files and unnamed memory have no such name. */
  predicate Stateful(path: seq<Byte>) {
    !Begins(path, "[") || Spells(path, "[heap]") || Spells(path, "[stack]")
  }

  /** The five classes by name and privileges. */
  lemma {:induction false} ClassifiedExactly(l: ParsedLine)
    ensures var readable, private := l.privileges[0] == 'r', l.privileges[3] == 'p';
      && (ClassifyMapsLine(l) == VmaKernel <==> NamedByKernel(l.path))
      && (ClassifyMapsLine(l) == VmaSkipUnreadable <==> !NamedByKernel(l.path) && !readable)
      && (ClassifyMapsLine(l) == VmaSkipShared <==> !NamedByKernel(l.path) && readable && !private)
      && (ClassifyMapsLine(l) == VmaSkipPseudo <==> !NamedByKernel(l.path) && readable && private && !Stateful(l.path))
      && (ClassifyMapsLine(l) == VmaDump <==> readable && private && Stateful(l.path))
  {
    NamesSpelt();
    SameName(VDSO, "[vdso]", l.path);
    SameName(VVAR, "[vvar", l.path);
    SameName(HEAP, "[heap]", l.path);
    SameName(STACK, "[stack]", l.path);
    assert Begins(l.path, "[") <==> l.path != [] && l.path[0] == BRACKET;
    DumpedExactly(l);
  }

  /** What the rule order of the classifier comes to for a copied mapping. */
  lemma {:induction false} DumpedExactly(l: ParsedLine)
    ensures ClassifyMapsLine(l) == VmaDump
       <==> l.privileges[0] == 'r' && l.privileges[3] == 'p' && IsDumpablePath(l.path)
    ensures ClassifyMapsLine(l) == VmaKernel ==> !IsDumpablePath(l.path)
  {
    assert VDSO[0] == BRACKET == VVAR[0];
    assert VDSO[1] != HEAP[1] && VDSO[1] != STACK[1] && VVAR[1] != HEAP[1] && VVAR[1] != STACK[1];
  }

  /** The letters of a line and the bits of its protection say the same. */
  lemma {:induction false} ProtectionExactly(privileges: string)
    requires |privileges| == 4
    ensures PermsToProt(privileges) % 2 == 1 <==> privileges[0] == 'r'
    ensures (PermsToProt(privileges) / 2) % 2 == 1 <==> privileges[1] == 'w'
    ensures (PermsToProt(privileges) / 4) % 2 == 1 <==> privileges[2] == 'x'
    ensures PermsToProt(privileges) < 8
  {
  }

  lemma {:induction false} MapFlagsExactly(privileges: string)
    requires |privileges| == 4
    ensures PermsToMapFlags(privileges) == if privileges[3] == 'p' then 0x02 else 0x01
  {
  }

  /** The first mapping with a name. */
  method FindNamedMap(listing: seq<RawLine>, name: seq<Byte>)
    returns (ok: bool, start: U64, size: U64)
    ensures ok <==> exists k :: 0 <= k < |listing| && Named(listing[k], name)
    ensures ok ==> size > 0
    ensures ok ==> exists k: nat :: FirstNamed(listing, name, k) && start == listing[k].line.start && size == listing[k].line.Size()
  {
    start, size := 0, 0;
    for i := 0 to |listing|
      invariant forall j :: 0 <= j < i ==> !Named(listing[j], name)
    {
      if listing[i].Parsed? && listing[i].line.path == name {
        assert FirstNamed(listing, name, i);
        return true, listing[i].line.start, listing[i].line.Size();
      }
    }
    return false, 0, 0;
  }

  predicate Named(raw: RawLine, name: seq<Byte>) {
    raw.Parsed? && raw.line.path == name
  }

  predicate FirstNamed(listing: seq<RawLine>, name: seq<Byte>, k: nat) {
    k < |listing| && Named(listing[k], name) && forall j :: 0 <= j < k ==> !Named(listing[j], name)
  }
}
