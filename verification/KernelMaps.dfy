/** Moving the kernel mappings of the child back to where the dumped process had them. */
module KernelMaps {
  import opened Bytes
  import opened DumpFormat
  import opened AddressSpace
  import opened Child
  import opened Injection
  import opened Maps

  /** The name of a recorded mapping, up to its first NUL. */
  function NameOf(k: KernelMap): seq<Byte> {
    UpToNul(k.name)
  }

  function WantedLine(k: KernelMap): Line {
    Line(NameOf(k), k.start, k.size)
  }

  predicate LinesApart(l: Line, m: Line) {
    Apart(l.start, l.size, m.start, m.size)
  }

  /** Distinct names, page-sized, no two wanted ranges sharing an address. */
  predicate WantedOk(wanted: seq<KernelMap>) {
    && (forall i :: 0 <= i < |wanted| ==> NameOf(wanted[i]) != [] && wanted[i].size % PAGE == 0
                                          && wanted[i].start + wanted[i].size < TWO_64)
    && (forall i, j :: 0 <= i < j < |wanted| ==>
          NameOf(wanted[i]) != NameOf(wanted[j]) && LinesApart(WantedLine(wanted[i]), WantedLine(wanted[j])))
  }

  /** The child's mapping list: non-empty ranges, no two sharing an address. */
  predicate LinesOk(lines: set<Line>) {
    && (forall l :: l in lines ==> l.size > 0 && l.start + l.size < TWO_64)
    && (forall l, m :: l in lines && m in lines && l != m ==> LinesApart(l, m))
  }

  /** The injected instruction is clear of every mapping that moves and of every place one moves to. */
  predicate SiteClear(lines: set<Line>, wanted: seq<KernelMap>, site: int) {
    && (forall i :: 0 <= i < |wanted| ==> Apart(site, 8, wanted[i].start, wanted[i].size))
    && (forall l, i :: l in lines && 0 <= i < |wanted| && l.name == NameOf(wanted[i]) ==> Apart(site, 8, l.start, l.size))
  }

  // ----- looking a mapping up -----

  predicate Shows(raw: RawLine, l: Line) {
    raw.Parsed? && raw.line.path == l.name && raw.line.start == l.start && raw.line.end == l.start + l.size
  }

  /** A reading of the mapping list: in address order, and showing exactly the named mappings. */
  predicate ListingOf(listing: seq<RawLine>, lines: set<Line>) {
    && (forall i, j :: 0 <= i < j < |listing| && listing[i].Parsed? && listing[j].Parsed? ==>
          listing[i].line.end <= listing[j].line.start)
    && (forall i :: 0 <= i < |listing| && listing[i].Parsed? && listing[i].line.path != [] ==>
          Line(listing[i].line.path, listing[i].line.start, listing[i].line.Size()) in lines)
    && (forall l :: l in lines && l.name != [] ==> exists i :: 0 <= i < |listing| && Shows(listing[i], l))
  }

  /** Reads the mapping list; any listing the kernel may give is possible. */
  method ReadMaps(c: Tracee) returns (ok: bool, listing: seq<RawLine>)
    modifies c`failed
    ensures c.failed == (old(c.failed) || !ok)
    ensures ok ==> ListingOf(listing, c.space.lines)
  {
    ok, listing := *, *;
    if !ListingOf(listing, c.space.lines) {
      ok := false;
    }
    c.failed := c.failed || !ok;
  }

  /** The lowest mapping with a name. */
  predicate LowestNamed(lines: set<Line>, l: Line) {
    l in lines && forall m :: m in lines && m.name == l.name ==> l.start <= m.start
  }

  /** There is no mapping to find: none has the name, or the name is no name. */
  predicate Missing(lines: set<Line>, name: seq<Byte>) {
    name == [] || forall l :: l in lines ==> l.name != name
  }

  /** Looks a name up in the child's mapping list; it fails for a failed call or a missing mapping only. */
  method FindChildMap(c: Tracee, name: seq<Byte>) returns (ok: bool, start: U64, size: U64)
    modifies c`reported, c`failed
    ensures if ok then c.failed == old(c.failed) else old(c.failed) ==> c.failed
    ensures !ok ==> c.failed || Missing(c.space.lines, name)
    ensures ok ==> size > 0 && c.reported == old(c.reported) + [Found(Line(name, start, size))]
    ensures ok && name != [] ==> LowestNamed(c.space.lines, Line(name, start, size))
  {
    hide ListingOf, LowestNamed, FirstNamed, NoNul, MapsLine.Parsable, Missing, Named;
    var listing;
    ok, listing := ReadMaps(c);
    start, size := 0, 0;
    if !ok {
      return;
    }
    ok, start, size := FindNamedMap(listing, name);
    if !ok {
      NoneNamed(listing, c.space.lines, name);
    }
    if ok && name != [] {
      FoundIsLowest(listing, c.space.lines, name, start, size);
    }
    if ok {
      c.reported := c.reported + [Found(Line(name, start, size))];
    }
  }

  lemma {:induction false} NoneNamed(listing: seq<RawLine>, lines: set<Line>, name: seq<Byte>)
    requires ListingOf(listing, lines)
    ensures Missing(lines, name) || exists k :: 0 <= k < |listing| && Named(listing[k], name)
  {
    hide ListingOf;
    if !Missing(lines, name) {
      var l :| l in lines && l.name == name;
      var i := ShownAt(listing, lines, l);
      assert Named(listing[i], name);
    }
  }

  lemma {:induction false} FoundIsLowest(listing: seq<RawLine>, lines: set<Line>, name: seq<Byte>, start: U64, size: U64)
    requires ListingOf(listing, lines) && name != []
    requires exists k: nat ::
      FirstNamed(listing, name, k) && start == listing[k].line.start && size == listing[k].line.Size()
    ensures LowestNamed(lines, Line(name, start, size))
  {
    hide ListingOf, LowestNamed, NoNul;
    var k: nat :| FirstNamed(listing, name, k) && start == listing[k].line.start && size == listing[k].line.Size();
    FirstIsLowest(listing, lines, name, k);
  }

  lemma {:induction false} FirstIsLowest(listing: seq<RawLine>, lines: set<Line>, name: seq<Byte>, k: nat)
    requires ListingOf(listing, lines) && name != [] && FirstNamed(listing, name, k)
    ensures LowestNamed(lines, Line(name, listing[k].line.start, listing[k].line.Size()))
  {
    hide NoNul;
    forall m | m in lines && m.name == name ensures listing[k].line.start <= m.start {
      NotLower(listing, lines, name, k, m);
    }
  }

  lemma {:induction false} ShownAt(listing: seq<RawLine>, lines: set<Line>, m: Line) returns (i: nat)
    requires ListingOf(listing, lines) && m in lines && m.name != []
    ensures i < |listing| && Shows(listing[i], m)
  {
    hide Shows;
    i :| 0 <= i < |listing| && Shows(listing[i], m);
  }

  lemma {:induction false} InOrder(listing: seq<RawLine>, lines: set<Line>, k: nat, i: nat)
    requires ListingOf(listing, lines) && k <= i < |listing| && listing[k].Parsed? && listing[i].Parsed?
    ensures k < i ==> listing[k].line.end <= listing[i].line.start
  {
    hide Shows, NoNul, MapsLine.Parsable;
  }

  lemma {:induction false} NotLower(listing: seq<RawLine>, lines: set<Line>, name: seq<Byte>, k: nat, m: Line)
    requires ListingOf(listing, lines) && name != [] && FirstNamed(listing, name, k)
    requires m in lines && m.name == name
    ensures listing[k].line.start <= m.start
  {
    hide NoNul, MapsLine.Parsable;
    var i := ShownAt(listing, lines, m);
    assert Named(listing[i], name) && k <= i;
    InOrder(listing, lines, k, i);
    hide ListingOf;
    StartsBelow(listing, k, i);
  }

  lemma {:induction false} StartsBelow(listing: seq<RawLine>, k: nat, i: nat)
    requires k <= i < |listing| && listing[k].Parsed? && listing[i].Parsed?
    requires k < i ==> listing[k].line.end <= listing[i].line.start
    ensures listing[k].line.start <= listing[i].line.start
  {
    assert listing[k].line.Parsable();
  }

  // ----- what unmapping and moving do to the list -----

  /** Whatever is left lies inside a line that was there, with the same name. */
  lemma {:induction false} PunchLeaves(lines: set<Line>, start: nat, size: nat, p: Line) returns (l: Line)
    requires p in Punched(lines, start, size)
    ensures l in lines && l.name == p.name && l.start <= p.start && p.start + p.size <= l.start + l.size
    ensures Apart(l.start, l.size, start, size) ==> l == p
  {
    l :| l in lines && p in Pieces(l, start, size);
  }

  lemma {:induction false} MoveCarries(lines: set<Line>, l: Line, to: nat)
    requires l in lines && l.size > 0
    ensures Line(l.name, to, l.size) in Carried(lines, l.start, l.size, to)
  {
    assert Line(l.name, to, l.size) in Shifted(l, l.start, l.size, to);
  }

  lemma {:induction false} CarriedFrom(lines: set<Line>, from: nat, size: nat, to: nat, p: Line) returns (l: Line)
    requires p in Carried(lines, from, size, to)
    ensures l in lines && l.name == p.name && !Apart(l.start, l.size, from, size)
    ensures to <= p.start && p.start + p.size <= to + size
  {
    l :| l in lines && p in Shifted(l, from, size, to);
  }

  // ----- the invariant of the moves -----

  /** `found` names the child's mapping for each wanted one; `i` of them have been moved, unless a move was cut off. */
  ghost predicate Moving(lines: set<Line>, found: seq<Line>, wanted: seq<KernelMap>, i: nat, cut: bool)
    requires i <= |wanted| == |found|
  {
    && (!cut ==> forall j :: 0 <= j < i ==> WantedLine(wanted[j]) in lines)
    && (forall j :: i <= j < |found| ==> LowestNamed(lines, found[j]))
    && (forall j, l :: i <= j < |found| && l in lines && l != found[j] ==> LinesApart(l, found[j]))
  }

  /** What the first loop learned and the guard after it established. */
  ghost predicate Plan(found: seq<Line>, wanted: seq<KernelMap>) {
    && |found| == |wanted|
    && (forall i :: 0 <= i < |wanted| ==> found[i].name == NameOf(wanted[i]) && found[i].size == wanted[i].size > 0)
    && (forall i, j :: 0 <= i < |wanted| && 0 <= j < |wanted| ==> LinesApart(found[i], WantedLine(wanted[j])))
    && (forall i, j :: 0 <= i < |wanted| && 0 <= j < |wanted| && i != j ==> LinesApart(found[i], found[j]))
  }

  /** The line list after wanted mapping `i` moved. */
  function MovedLines(lines: set<Line>, from: Line, to: nat): set<Line> {
    Punched(Punched(lines, to, from.size), from.start, from.size)
    + Carried(Punched(lines, to, from.size), from.start, from.size, to)
  }

  lemma {:induction false} MovedKeeps(lines: set<Line>, from: Line, to: nat, l: Line)
    requires l in lines && LinesApart(l, from) && Apart(l.start, l.size, to, from.size)
    ensures l in MovedLines(lines, from, to)
  {
    PunchKeeps(lines, to, from.size, l);
    PunchKeeps(Punched(lines, to, from.size), from.start, from.size, l);
  }

  /** A line after the move is part of a line that stayed, or the moved one at its new place. */
  lemma {:induction false} MovedLeaves(lines: set<Line>, from: Line, to: nat, p: Line) returns (l: Line)
    requires p in MovedLines(lines, from, to)
    requires from in lines && forall m :: m in lines && m != from ==> LinesApart(m, from)
    ensures l in lines && l.name == p.name
    ensures || (l.start <= p.start && p.start + p.size <= l.start + l.size)
            || (l == from && to <= p.start && p.start + p.size <= to + from.size)
    ensures l != from && Apart(l.start, l.size, to, from.size) ==> l == p
  {
    var punched := Punched(lines, to, from.size);
    if p in Punched(punched, from.start, from.size) {
      var q := PunchLeaves(punched, from.start, from.size, p);
      l := PunchLeaves(lines, to, from.size, q);
      if l != from {
        assert LinesApart(l, from);
      }
    } else {
      var q := CarriedFrom(punched, from.start, from.size, to, p);
      l := PunchLeaves(lines, to, from.size, q);
      assert l == from;
    }
  }

  lemma {:induction false} OneMoved(lines: set<Line>, found: seq<Line>, wanted: seq<KernelMap>, i: nat, cut: bool)
    requires i < |wanted| && WantedOk(wanted) && Plan(found, wanted) && Moving(lines, found, wanted, i, cut)
    ensures Moving(MovedLines(lines, found[i], wanted[i].start), found, wanted, i + 1, cut)
  {
    var from, to := found[i], wanted[i].start;
    var after := MovedLines(lines, from, to);
    assert LowestNamed(lines, from);
    PunchKeeps(lines, to, from.size, from);
    MoveCarries(Punched(lines, to, from.size), from, to);
    forall j | 0 <= j < i + 1 && !cut ensures WantedLine(wanted[j]) in after {
      if j < i {
        assert LinesApart(WantedLine(wanted[j]), WantedLine(wanted[i]));
        assert LinesApart(from, WantedLine(wanted[j]));
        MovedKeeps(lines, from, to, WantedLine(wanted[j]));
      }
    }
    forall j | i + 1 <= j < |found| ensures LowestNamed(after, found[j]) {
      StaysLowest(lines, found, wanted, i, j, cut);
    }
    forall j, p | i + 1 <= j < |found| && p in after && p != found[j] ensures LinesApart(p, found[j]) {
      StaysApart(lines, found, wanted, i, j, p, cut);
    }
  }

  lemma {:induction false} StaysLowest(lines: set<Line>, found: seq<Line>, wanted: seq<KernelMap>, i: nat, j: nat, cut: bool)
    requires i < j < |wanted| && WantedOk(wanted) && Plan(found, wanted) && Moving(lines, found, wanted, i, cut)
    ensures LowestNamed(MovedLines(lines, found[i], wanted[i].start), found[j])
  {
    var from, to := found[i], wanted[i].start;
    var after := MovedLines(lines, from, to);
    assert LowestNamed(lines, from) && LowestNamed(lines, found[j]);
    assert LinesApart(found[j], from) && LinesApart(found[j], WantedLine(wanted[i]));
    MovedKeeps(lines, from, to, found[j]);
    forall p | p in after && p.name == found[j].name ensures found[j].start <= p.start {
      var l := MovedLeaves(lines, from, to, p);
      assert NameOf(wanted[i]) != NameOf(wanted[j]);
    }
  }

  lemma {:induction false} StaysApart(lines: set<Line>, found: seq<Line>, wanted: seq<KernelMap>, i: nat, j: nat, p: Line, cut: bool)
    requires i < j < |wanted| && WantedOk(wanted) && Plan(found, wanted) && Moving(lines, found, wanted, i, cut)
    requires p in MovedLines(lines, found[i], wanted[i].start) && p != found[j]
    ensures LinesApart(p, found[j])
  {
    var from, to := found[i], wanted[i].start;
    assert LowestNamed(lines, from) && LowestNamed(lines, found[j]);
    var l := MovedLeaves(lines, from, to, p);
    assert LinesApart(found[j], WantedLine(wanted[i]));
    assert l != found[j] ==> LinesApart(l, found[j]);
    assert LinesApart(found[j], from);
  }

  // ----- the first loop -----

  /** The end of a range as the engine computes it, which may wrap. */
  function End(l: Line): nat {
    (l.start + l.size) % TWO_64
  }

  /** Mapping `l` was found for `k`: it has its name and its size, and it is the lowest one of that name. */
  ghost predicate FoundFor(lines: set<Line>, l: Line, k: KernelMap) {
    && l.name == NameOf(k) && l.size == k.size > 0 && l.start < TWO_64
    && (l.name != [] ==> LowestNamed(lines, l))
  }

  /** `found` holds the child's mappings for the first `n` wanted ones, and the four bounds enclose both. */
  ghost predicate Surveyed(lines: set<Line>, found: seq<Line>, wanted: seq<KernelMap>, n: nat,
                           childLow: nat, childHigh: nat, wantedLow: nat, wantedHigh: nat)
  {
    && n == |found| <= |wanted|
    && (forall i :: 0 <= i < n ==> FoundFor(lines, found[i], wanted[i]))
    && (forall i :: 0 <= i < n ==> childLow <= found[i].start && End(found[i]) <= childHigh)
    && (forall i :: 0 <= i < n ==> wantedLow <= wanted[i].start && End(WantedLine(wanted[i])) <= wantedHigh)
  }

  /** The bounds are no wider than that: each is the bound of some mapping. */
  ghost predicate Tight(found: seq<Line>, wanted: seq<KernelMap>, n: nat,
                        childLow: nat, childHigh: nat, wantedLow: nat, wantedHigh: nat)
  {
    && n == |found| <= |wanted|
    && (n == 0 ==> childLow == wantedLow == TWO_64 - 1 && childHigh == wantedHigh == 0)
    && (n > 0 ==> exists i :: 0 <= i < n && found[i].start == childLow)
    && (n > 0 ==> exists i :: 0 <= i < n && End(found[i]) == childHigh)
    && (n > 0 ==> exists i :: 0 <= i < n && wanted[i].start == wantedLow)
    && (n > 0 ==> exists i :: 0 <= i < n && End(WantedLine(wanted[i])) == wantedHigh)
  }

  /** Taking the lower start and the higher end keeps the bounds tight. */
  lemma {:induction false} OneTighter(found: seq<Line>, wanted: seq<KernelMap>, n: nat, l: Line,
                                      hull: (nat, nat, nat, nat),
                                      childLow: nat, childHigh: nat, wantedLow: nat, wantedHigh: nat)
    requires n < |wanted| && Tight(found, wanted, n, hull.0, hull.1, hull.2, hull.3) && l.start < TWO_64
    requires childLow == (if l.start < hull.0 then l.start else hull.0)
    requires childHigh == (if End(l) > hull.1 then End(l) else hull.1)
    requires wantedLow == (if wanted[n].start < hull.2 then wanted[n].start else hull.2)
    requires wantedHigh == (if End(WantedLine(wanted[n])) > hull.3 then End(WantedLine(wanted[n])) else hull.3)
    ensures Tight(found + [l], wanted, n + 1, childLow, childHigh, wantedLow, wantedHigh)
  {
    hide End;
    var both := found + [l];
    assert both[n] == l && forall i :: 0 <= i < n ==> both[i] == found[i];
    if n == 0 {
      assert childLow == l.start && childHigh == End(l);
    } else {
      var a :| 0 <= a < n && found[a].start == hull.0;
      var b :| 0 <= b < n && End(found[b]) == hull.1;
      assert both[a].start == hull.0 && End(both[b]) == hull.1;
    }
  }

  /** The mapping of this name is missing, or of another size than the snapshot says. */
  ghost predicate Unmet(lines: set<Line>, k: KernelMap) {
    Missing(lines, NameOf(k)) || exists l :: LowestNamed(lines, l) && l.name == NameOf(k) && l.size != k.size
  }

  /** All were found, but some start lies below some wanted end and some wanted start below some end. */
  ghost predicate HullsMeet(lines: set<Line>, found: seq<Line>, wanted: seq<KernelMap>) {
    && |found| == |wanted|
    && (forall i :: 0 <= i < |wanted| ==> FoundFor(lines, found[i], wanted[i]))
    && (exists i, j :: 0 <= i < |found| && 0 <= j < |wanted| && found[i].start < End(WantedLine(wanted[j])))
    && (exists i, j :: 0 <= i < |found| && 0 <= j < |wanted| && wanted[j].start < End(found[i]))
  }

  lemma {:induction false} GuardFailed(lines: set<Line>, found: seq<Line>, wanted: seq<KernelMap>,
                                       childLow: nat, childHigh: nat, wantedLow: nat, wantedHigh: nat)
    requires Surveyed(lines, found, wanted, |wanted|, childLow, childHigh, wantedLow, wantedHigh)
    requires Tight(found, wanted, |wanted|, childLow, childHigh, wantedLow, wantedHigh)
    requires |wanted| > 0 && childLow < wantedHigh && wantedLow < childHigh
    ensures HullsMeet(lines, found, wanted)
  {
    hide FoundFor, End;
    var a :| 0 <= a < |wanted| && found[a].start == childLow;
    var b :| 0 <= b < |wanted| && End(found[b]) == childHigh;
    var d :| 0 <= d < |wanted| && wanted[d].start == wantedLow;
    var e :| 0 <= e < |wanted| && End(WantedLine(wanted[e])) == wantedHigh;
    assert found[a].start < End(WantedLine(wanted[e]));
    assert wanted[d].start < End(found[b]);
  }

  /** The lookups of a survey, in order. */
  function Lookups(found: seq<Line>): seq<Report> {
    if found == [] then [] else Lookups(found[..|found| - 1]) + [Found(found[|found| - 1])]
  }

  lemma {:induction false} OneMoreLookup(found: seq<Line>, l: Line)
    ensures Lookups(found + [l]) == Lookups(found) + [Found(l)]
  {
    assert (found + [l])[..|found|] == found;
  }

  lemma {:induction false} NothingSurveyed(lines: set<Line>, wanted: seq<KernelMap>,
                                           childLow: nat, childHigh: nat, wantedLow: nat, wantedHigh: nat)
    ensures Surveyed(lines, [], wanted, 0, childLow, childHigh, wantedLow, wantedHigh) && Lookups([]) == []
    ensures Tight([], wanted, 0, TWO_64 - 1, 0, TWO_64 - 1, 0)
  {
  }

  /** Widening the hulls covers one more mapping. */
  lemma {:induction false} OneSurveyed(lines: set<Line>, found: seq<Line>, wanted: seq<KernelMap>, n: nat, l: Line,
                                       hull: (nat, nat, nat, nat),
                                       childLow: nat, childHigh: nat, wantedLow: nat, wantedHigh: nat)
    requires n < |wanted| && Surveyed(lines, found, wanted, n, hull.0, hull.1, hull.2, hull.3) && FoundFor(lines, l, wanted[n])
    requires childLow <= hull.0 && hull.1 <= childHigh && wantedLow <= hull.2 && hull.3 <= wantedHigh
    requires childLow <= l.start && End(l) <= childHigh
    requires wantedLow <= wanted[n].start && End(WantedLine(wanted[n])) <= wantedHigh
    ensures Surveyed(lines, found + [l], wanted, n + 1, childLow, childHigh, wantedLow, wantedHigh)
  {
    hide FoundFor, End;
  }

  /**
   The first loop: looks every mapping up, compares the sizes, and takes the
   hull of where they are and the hull of where they go.
   */
  method SurveyKernelMaps(c: Tracee, wanted: seq<KernelMap>)
    returns (ok: bool, childLow: U64, childHigh: U64, wantedLow: U64, wantedHigh: U64, ghost found: seq<Line>)
    modifies c`reported, c`failed
    ensures if ok then c.failed == old(c.failed) else old(c.failed) ==> c.failed
    ensures !ok ==> c.failed || exists i :: 0 <= i < |wanted| && Unmet(c.space.lines, wanted[i])
    ensures ok ==> Surveyed(c.space.lines, found, wanted, |wanted|, childLow, childHigh, wantedLow, wantedHigh)
    ensures ok ==> Tight(found, wanted, |wanted|, childLow, childHigh, wantedLow, wantedHigh)
    ensures ok ==> c.reported == old(c.reported) + Lookups(found)
  {
    hide LowestNamed, NameOf, Lookups, Surveyed, Tight, Missing;
    childLow, childHigh, wantedLow, wantedHigh := TWO_64 - 1, 0, TWO_64 - 1, 0;
    found := [];
    NothingSurveyed(c.space.lines, wanted, childLow, childHigh, wantedLow, wantedHigh);
    for i := 0 to |wanted|
      invariant c.failed == old(c.failed)
      invariant Surveyed(c.space.lines, found, wanted, i, childLow, childHigh, wantedLow, wantedHigh)
      invariant Tight(found, wanted, i, childLow, childHigh, wantedLow, wantedHigh)
      invariant c.reported == old(c.reported) + Lookups(found)
    {
      var start, size;
      ok, start, size := FindChildMap(c, NameOf(wanted[i]));
      if !ok {
        assert c.failed || Unmet(c.space.lines, wanted[i]);
        return;
      }
      if size != wanted[i].size {
        OtherSize(c.space.lines, wanted[i], start, size);
        ok := false;
        return;
      }
      ghost var l, hull := Line(NameOf(wanted[i]), start, size), (childLow, childHigh, wantedLow, wantedHigh);
      if start < childLow {
        childLow := start;
      }
      if Add64(start, size) > childHigh {
        childHigh := Add64(start, size);
      }
      if wanted[i].start < wantedLow {
        wantedLow := wanted[i].start;
      }
      if Add64(wanted[i].start, wanted[i].size) > wantedHigh {
        wantedHigh := Add64(wanted[i].start, wanted[i].size);
      }
      OneSurveyed(c.space.lines, found, wanted, i, l, hull, childLow, childHigh, wantedLow, wantedHigh);
      OneTighter(found, wanted, i, l, hull, childLow, childHigh, wantedLow, wantedHigh);
      OneMoreLookup(found, l);
      found := found + [l];
    }
    ok := true;
  }

  lemma {:induction false} OtherSize(lines: set<Line>, k: KernelMap, start: nat, size: nat)
    requires size != k.size && (NameOf(k) != [] ==> LowestNamed(lines, Line(NameOf(k), start, size)))
    ensures Unmet(lines, k)
  {
    hide NameOf, LowestNamed;
  }

  /** The guard between the loops: everything found lies above every place wanted, or everything lies below. */
  ghost predicate OneSide(found: seq<Line>, wanted: seq<KernelMap>) {
    || (forall i, j :: 0 <= i < |found| && 0 <= j < |wanted| ==> End(WantedLine(wanted[j])) <= found[i].start)
    || (forall i, j :: 0 <= i < |found| && 0 <= j < |wanted| ==> End(found[i]) <= wanted[j].start)
  }

  /** What a survey that let the moves begin has seen. */
  ghost predicate SurveyPassed(lines: set<Line>, found: seq<Line>, wanted: seq<KernelMap>) {
    && |found| == |wanted|
    && (forall i :: 0 <= i < |wanted| ==> FoundFor(lines, found[i], wanted[i]))
    && OneSide(found, wanted)
  }

  /** Disjoint hulls put everything found on one side of everything wanted. */
  lemma {:induction false} GuardPassed(lines: set<Line>, found: seq<Line>, wanted: seq<KernelMap>,
                                       childLow: nat, childHigh: nat, wantedLow: nat, wantedHigh: nat)
    requires Surveyed(lines, found, wanted, |wanted|, childLow, childHigh, wantedLow, wantedHigh)
    requires !(childLow < wantedHigh && wantedLow < childHigh)
    ensures SurveyPassed(lines, found, wanted)
  {
    hide FoundFor;
  }

  lemma {:induction false} SidesApart(found: seq<Line>, wanted: seq<KernelMap>)
    requires OneSide(found, wanted) && |found| == |wanted|
    requires forall i :: 0 <= i < |wanted| ==>
      End(found[i]) == found[i].start + found[i].size && End(WantedLine(wanted[i])) == wanted[i].start + wanted[i].size
    ensures forall i, j :: 0 <= i < |wanted| && 0 <= j < |wanted| ==> LinesApart(found[i], WantedLine(wanted[j]))
  {
    hide NameOf;
  }

  /** Without wrapping, every source is clear of every destination; in particular nothing is already in place. */
  lemma {:induction false} HullsApart(lines: set<Line>, found: seq<Line>, wanted: seq<KernelMap>)
    requires WantedOk(wanted) && LinesOk(lines) && SurveyPassed(lines, found, wanted)
    ensures Plan(found, wanted) && Moving(lines, found, wanted, 0, false)
    ensures forall i :: 0 <= i < |wanted| ==> found[i].name == NameOf(wanted[i]) && LowestNamed(lines, found[i])
    ensures forall i :: 0 <= i < |wanted| ==> found[i].start != wanted[i].start
  {
    hide NameOf, OneSide;
    forall i | 0 <= i < |wanted|
      ensures LowestNamed(lines, found[i]) && End(found[i]) == found[i].start + found[i].size
      ensures End(WantedLine(wanted[i])) == wanted[i].start + wanted[i].size
    {
      assert FoundFor(lines, found[i], wanted[i]);
      assert found[i] in lines;
    }
    SidesApart(found, wanted);
    hide End;
    forall i, j | 0 <= i < |wanted| && 0 <= j < |wanted| && i != j ensures LinesApart(found[i], found[j]) {
      assert NameOf(wanted[if i < j then i else j]) != NameOf(wanted[if i < j then j else i]);
    }
    forall i | 0 <= i < |wanted| ensures found[i].start != wanted[i].start {
      assert LinesApart(found[i], WantedLine(wanted[i]));
    }
  }

  // ----- what the moves do to memory -----

  predicate Elsewhere(a: int, found: seq<Line>, wanted: seq<KernelMap>)
    requires |found| == |wanted|
  {
    forall i :: 0 <= i < |wanted| ==> !In(a, found[i].start, found[i].size) && !In(a, wanted[i].start, wanted[i].size)
  }

  /** Memory outside every source and destination is untouched, but for an instruction that could not be put back. */
  ghost predicate ElsewhereKept(before: Space, after: Space, found: seq<Line>, wanted: seq<KernelMap>, at: int, lost: bool)
    requires |found| == |wanted|
  {
    forall a :: a in before.cells && Elsewhere(a, found, wanted) ==>
      a in after.cells && CellKept(before.cells[a], after.cells[a], a, at, lost)
  }

  /** The contents of a range are now found at `to`. */
  ghost predicate MovedTo(before: Space, after: Space, from: Line, to: nat) {
    forall a :: In(a, to, from.size) ==>
      a in after.cells && a - to + from.start in before.cells && after.cells[a] == before.cells[a - to + from.start]
  }

  ghost predicate Untouched(before: Space, after: Space, l: Line) {
    forall a :: In(a, l.start, l.size) ==>
      (a in after.cells <==> a in before.cells) && (a in before.cells ==> after.cells[a] == before.cells[a])
  }

  /** The first `n` mappings have moved with their contents, unless a move was cut off; the others are untouched. */
  ghost predicate ContentsMoved(before: Space, after: Space, found: seq<Line>, wanted: seq<KernelMap>, n: nat, cut: bool)
    requires n <= |wanted| == |found|
  {
    && (!cut ==> forall i :: 0 <= i < n ==> MovedTo(before, after, found[i], wanted[i].start))
    && (forall i :: n <= i < |wanted| ==> Untouched(before, after, found[i]))
  }

  lemma {:induction false} MovedToKept(before: Space, s: Space, l: Line, place: nat, from: Line, to: nat)
    requires MovedTo(before, s, l, place)
    requires AllIn(s, from.start, from.size) && Apart(from.start, from.size, to, from.size)
    requires Apart(place, l.size, from.start, from.size) && Apart(place, l.size, to, from.size)
    ensures MovedTo(before, Move(s, from.start, from.size, to), l, place)
  {
    hide Punched, Carried;
  }

  lemma {:induction false} MovedToNow(before: Space, s: Space, from: Line, to: nat)
    requires Untouched(before, s, from)
    requires AllIn(s, from.start, from.size) && Apart(from.start, from.size, to, from.size)
    ensures MovedTo(before, Move(s, from.start, from.size, to), from, to)
  {
    hide Punched, Carried;
    var after := Move(s, from.start, from.size, to);
    forall a | In(a, to, from.size)
      ensures a in after.cells && a - to + from.start in before.cells && after.cells[a] == before.cells[a - to + from.start]
    {
      assert In(a - to + from.start, from.start, from.size);
    }
  }

  lemma {:induction false} UntouchedKept(before: Space, s: Space, l: Line, from: Line, to: nat)
    requires Untouched(before, s, l)
    requires AllIn(s, from.start, from.size) && Apart(from.start, from.size, to, from.size)
    requires LinesApart(l, from) && Apart(l.start, l.size, to, from.size)
    ensures Untouched(before, Move(s, from.start, from.size, to), l)
  {
    hide Punched, Carried;
  }

  lemma {:induction false} OneContentsMoved(before: Space, s: Space, found: seq<Line>, wanted: seq<KernelMap>, i: nat, cut: bool)
    requires i < |wanted| && WantedOk(wanted) && Plan(found, wanted) && ContentsMoved(before, s, found, wanted, i, cut)
    requires AllIn(s, found[i].start, found[i].size) && LinesApart(found[i], WantedLine(wanted[i]))
    ensures ContentsMoved(before, Move(s, found[i].start, found[i].size, wanted[i].start), found, wanted, i + 1, cut)
  {
    hide Move, MovedTo, Untouched;
    var from, to := found[i], wanted[i].start;
    var after := Move(s, from.start, from.size, to);
    forall j | 0 <= j < i + 1 && !cut ensures MovedTo(before, after, found[j], wanted[j].start) {
      if j < i {
        assert LinesApart(WantedLine(wanted[j]), WantedLine(wanted[i])) && LinesApart(from, WantedLine(wanted[j]));
        MovedToKept(before, s, found[j], wanted[j].start, from, to);
      } else {
        MovedToNow(before, s, from, to);
      }
    }
    forall j | i + 1 <= j < |wanted| ensures Untouched(before, after, found[j]) {
      assert LinesApart(found[j], from) && LinesApart(found[j], WantedLine(wanted[i]));
      UntouchedKept(before, s, found[j], from, to);
    }
  }

  ghost predicate SiteKept(found: seq<Line>, wanted: seq<KernelMap>, site: int)
    requires |found| == |wanted|
  {
    forall i :: 0 <= i < |wanted| ==>
      Apart(site, 8, found[i].start, found[i].size) && Apart(site, 8, wanted[i].start, wanted[i].size)
  }

  lemma {:induction false} KeptExecutable(before: Space, after: Space, found: seq<Line>, wanted: seq<KernelMap>, site: int, lost: bool)
    requires |found| == |wanted| && ElsewhereKept(before, after, found, wanted, site, lost) && SiteKept(found, wanted, site)
    requires Executable(before, site)
    ensures Executable(after, site)
  {
    forall i | 0 <= i < |wanted|
      ensures !In(site, found[i].start, found[i].size) && !In(site, wanted[i].start, wanted[i].size)
      ensures !In(site + 1, found[i].start, found[i].size) && !In(site + 1, wanted[i].start, wanted[i].size)
    {
      assert Apart(site, 8, found[i].start, found[i].size);
    }
  }

  lemma {:induction false} OneMoveElsewhere(before: Space, s: Space, found: seq<Line>, wanted: seq<KernelMap>, i: nat, at: int, lost: bool)
    requires i < |wanted| == |found| && ElsewhereKept(before, s, found, wanted, at, lost)
    requires found[i].size == wanted[i].size
    requires AllIn(s, found[i].start, found[i].size) && LinesApart(found[i], WantedLine(wanted[i]))
    ensures ElsewhereKept(before, Move(s, found[i].start, found[i].size, wanted[i].start), found, wanted, at, lost)
  {
    hide Punched, Carried, CellKept;
  }

  /** The opcode left standing at the site disturbs none of the ranges that move. */
  lemma {:induction false} LeftElsewhere(before: Space, s: Space, s': Space, found: seq<Line>, wanted: seq<KernelMap>,
                                         at: int, lost: bool, lost': bool)
    requires |found| == |wanted| && ElsewhereKept(before, s, found, wanted, at, lost)
    requires Left(s, s', at, lost') && (lost ==> lost')
    ensures ElsewhereKept(before, s', found, wanted, at, lost') && s'.lines == s.lines
  {
    forall a | a in before.cells && Elsewhere(a, found, wanted)
      ensures a in s'.cells && CellKept(before.cells[a], s'.cells[a], a, at, lost')
    {
      PlantedAt(s, at, a);
    }
  }

  lemma {:induction false} LeftContents(before: Space, s: Space, s': Space, found: seq<Line>, wanted: seq<KernelMap>, n: nat,
                                        at: int, lost: bool, cut: bool)
    requires n <= |found| == |wanted| && ContentsMoved(before, s, found, wanted, n, cut) && SiteKept(found, wanted, at)
    requires forall i :: 0 <= i < |wanted| ==> found[i].size == wanted[i].size
    requires Left(s, s', at, lost)
    ensures ContentsMoved(before, s', found, wanted, n, cut)
  {
    hide Planted;
    forall i | 0 <= i < n && !cut ensures MovedTo(before, s', found[i], wanted[i].start) {
      forall a | In(a, wanted[i].start, found[i].size)
        ensures a in s'.cells && a - wanted[i].start + found[i].start in before.cells
                && s'.cells[a] == before.cells[a - wanted[i].start + found[i].start]
      {
        assert MovedTo(before, s, found[i], wanted[i].start);
        PlantedAt(s, at, a);
      }
    }
    forall i | n <= i < |wanted| ensures Untouched(before, s', found[i]) {
      forall a | In(a, found[i].start, found[i].size)
        ensures (a in s'.cells <==> a in before.cells) && (a in before.cells ==> s'.cells[a] == before.cells[a])
      {
        assert Untouched(before, s, found[i]);
        PlantedAt(s, at, a);
      }
    }
  }

  // ----- the second loop -----

  /** The second lookups and the moving calls; one already in place needs none. */
  function MoveSteps(from: seq<Line>, wanted: seq<KernelMap>): seq<Report>
    requires |from| == |wanted|
  {
    if wanted == [] then []
    else
      var n := |wanted| - 1;
      var rest := MoveSteps(from[..n], wanted[..n]) + [Found(from[n])];
      if from[n].start == wanted[n].start then rest
      else rest + [MremapCall(from[n].start, from[n].size, wanted[n].size, wanted[n].start)]
  }

  lemma {:induction false} OneMoreMove(from: seq<Line>, at: Line, wanted: seq<KernelMap>, i: nat)
    requires |from| == i < |wanted|
    ensures MoveSteps(from + [at], wanted[..i + 1])
         == MoveSteps(from, wanted[..i]) + [Found(at)]
          + if at.start == wanted[i].start then [] else [MremapCall(at.start, at.size, wanted[i].size, wanted[i].start)]
  {
    assert wanted[..i + 1][..i] == wanted[..i] && (from + [at])[..i] == from;
  }

  predicate NamedAs(from: seq<Line>, wanted: seq<KernelMap>) {
    |from| == |wanted| && forall i :: 0 <= i < |wanted| ==> from[i].name == NameOf(wanted[i])
  }

  /** What the moves start from, once the survey has passed. */
  ghost predicate ReadyToMove(s: Space, found: seq<Line>, wanted: seq<KernelMap>, site: int) {
    && |found| == |wanted| && WantedOk(wanted) && Plan(found, wanted)
    && Moving(s.lines, found, wanted, 0, false) && SiteKept(found, wanted, site) && Executable(s, site)
  }

  /** What has been moved after `i` rounds. */
  ghost predicate MovedSoFar(before: Space, s: Space, found: seq<Line>, wanted: seq<KernelMap>, i: nat, site: int, lost: bool, cut: bool)
    requires i <= |wanted| == |found|
  {
    && Moving(s.lines, found, wanted, i, cut)
    && ElsewhereKept(before, s, found, wanted, site, lost)
    && ContentsMoved(before, s, found, wanted, i, cut)
  }

  /** A round whose move was cut off leaves everything where it was. */
  lemma {:induction false} CutRound(before: Space, s: Space, s': Space, found: seq<Line>, wanted: seq<KernelMap>, i: nat,
                                    site: int, lost: bool, lost': bool, cut: bool)
    requires i < |wanted| && ReadyToMove(before, found, wanted, site) && MovedSoFar(before, s, found, wanted, i, site, lost, cut)
    requires forall k :: 0 <= k < |wanted| ==> found[k].size == wanted[k].size
    requires Left(s, s', site, lost') && (lost ==> lost')
    ensures MovedSoFar(before, s', found, wanted, i + 1, site, lost', true)
  {
    hide LowestNamed, Untouched, ElsewhereKept, SiteKept, Left;
    LeftElsewhere(before, s, s', found, wanted, site, lost, lost');
    LeftContents(before, s, s', found, wanted, i, site, lost', cut);
  }

  lemma {:induction false} SizesPlanned(found: seq<Line>, wanted: seq<KernelMap>, s: Space, site: int)
    requires ReadyToMove(s, found, wanted, site)
    ensures |found| == |wanted| && forall k :: 0 <= k < |wanted| ==> found[k].size == wanted[k].size
  {
  }

  /** One round: the mapping found is the one surveyed, and the move puts it in place. */
  lemma {:induction false} OneRound(before: Space, s: Space, s': Space, found: seq<Line>, wanted: seq<KernelMap>, i: nat,
                                    site: int, lost: bool, lost': bool, cut: bool)
    requires i < |wanted| && ReadyToMove(before, found, wanted, site) && MovedSoFar(before, s, found, wanted, i, site, lost, cut)
    requires AllIn(s, found[i].start, found[i].size) && LinesApart(found[i], WantedLine(wanted[i]))
    requires found[i].size == wanted[i].size
    requires Left(Move(s, found[i].start, found[i].size, wanted[i].start), s', site, lost') && (lost ==> lost')
    ensures MovedSoFar(before, s', found, wanted, i + 1, site, lost', cut)
  {
    var moved := Move(s, found[i].start, found[i].size, wanted[i].start);
    assert moved.lines == MovedLines(s.lines, found[i], wanted[i].start);
    hide Move, Moving, ElsewhereKept, ContentsMoved, SiteKept, Left;
    OneMoved(s.lines, found, wanted, i, cut);
    OneMoveElsewhere(before, s, found, wanted, i, site, lost);
    OneContentsMoved(before, s, found, wanted, i, cut);
    LeftElsewhere(before, moved, s', found, wanted, site, lost, lost');
    LeftContents(before, moved, s', found, wanted, i + 1, site, lost', cut);
  }

  /** What the next round finds when it looks the mapping up. */
  lemma {:induction false} NextRound(before: Space, s: Space, found: seq<Line>, wanted: seq<KernelMap>, i: nat,
                                     site: int, lost: bool, cut: bool, l: Line)
    requires i < |wanted| && ReadyToMove(before, found, wanted, site) && MovedSoFar(before, s, found, wanted, i, site, lost, cut)
    requires l.name == NameOf(wanted[i]) && l.size > 0 && (l.name != [] ==> LowestNamed(s.lines, l))
    ensures l == found[i] && l.size == wanted[i].size == RoundUp(l.size) && l.start != wanted[i].start
    ensures LinesApart(found[i], WantedLine(wanted[i])) && Executable(s, site)
    ensures Apart(site, 8, found[i].start, found[i].size) && Apart(site, 8, wanted[i].start, wanted[i].size)
  {
    hide Moving, Plan, ElsewhereKept, ContentsMoved, Executable, NameOf;
    assert NameOf(wanted[i]) != [];
    SecondLookup(s.lines, found, wanted, i, l, cut);
    KeptExecutable(before, s, found, wanted, site, lost);
    RoundUpPages(wanted[i].size);
  }

  /**
   The second loop: moves every mapping. Each lookup finds the start the survey
   found, and no destination covers a mapping still to move or already moved.
   */
  method MoveKernelMaps(c: Tracee, wanted: seq<KernelMap>, ghost found: seq<Line>)
    returns (ok: bool, ghost from: seq<Line>)
    requires c.Live()
    modifies c`space, c`regs, c`fds, c`lost, c`reported, c`cut, c`phase, c`endSeen, c`failed
    ensures c.Followed() && (ok ==> c.Live()) && (old(c.lost) ==> c.lost) && old(c.cut) <= c.cut
    ensures if ok then c.failed == old(c.failed) else old(c.failed) ==> c.failed
    ensures !ok ==> c.failed || exists i :: 0 <= i < |wanted| && Missing(c.space.lines, NameOf(wanted[i]))
    ensures !ok && ReadyToMove(old(c.space), found, wanted, old(c.regs[RIP])) ==> c.failed
    ensures ok ==> NamedAs(from, wanted) && c.reported == old(c.reported) + MoveSteps(from, wanted)
    ensures ok ==> c.regs == old(c.regs) && c.fds == old(c.fds)
    ensures ok && ReadyToMove(old(c.space), found, wanted, old(c.regs[RIP])) ==>
      && MovedSoFar(old(c.space), c.space, found, wanted, |wanted|, old(c.regs[RIP]), c.lost, SYS_MREMAP in c.cut)
      && from == found
  {
    hide ReadyToMove, MovedSoFar, Executable, Move, MoveSteps, LowestNamed, NameOf, Left, Missing;
    ghost var site, before := c.regs[RIP], c.space;
    ghost var ready := ReadyToMove(before, found, wanted, site);
    if ready {
      NothingMoved(before, found, wanted, site, c.lost, SYS_MREMAP in c.cut);
    }
    from := [];
    assert MoveSteps(from, wanted[..0]) == [] by { NoMoves(wanted[..0]); }
    for i := 0 to |wanted|
      invariant c.Live() && (old(c.lost) ==> c.lost) && old(c.cut) <= c.cut && c.failed == old(c.failed)
      invariant |from| == i && (forall k :: 0 <= k < i ==> from[k].name == NameOf(wanted[k]))
      invariant c.reported == old(c.reported) + MoveSteps(from, wanted[..i])
      invariant c.regs == old(c.regs) && c.fds == old(c.fds)
      invariant ready ==> |found| == |wanted| && MovedSoFar(before, c.space, found, wanted, i, site, c.lost, SYS_MREMAP in c.cut)
      invariant ready ==> from == found[..i]
    {
      var start, size;
      ok, start, size := FindChildMap(c, NameOf(wanted[i]));
      if !ok {
        if ready {
          StillThere(before, c.space, found, wanted, i, site, c.lost, SYS_MREMAP in c.cut);
        }
        return;
      }
      ghost var s, lost, cut, l := c.space, c.lost, SYS_MREMAP in c.cut, Line(NameOf(wanted[i]), start, size);
      if ready {
        SizesPlanned(found, wanted, before, site);
        NextRound(before, s, found, wanted, i, site, lost, cut, l);
      }
      OneMoreMove(from, l, wanted, i);
      from := from + [l];
      if start == wanted[i].start {
        continue;
      }
      ghost var ran;
      ok, ran := InjectMremap(c, start, size, wanted[i].size, wanted[i].start);
      if !ok {
        return;
      }
      if ready && ran {
        OneRound(before, s, c.space, found, wanted, i, site, lost, c.lost, cut);
      } else if ready {
        CutRound(before, s, c.space, found, wanted, i, site, lost, c.lost, cut);
      }
    }
    assert wanted[..|wanted|] == wanted;
    ok := true;
  }

  /** A mapping still to move is still there to be found. */
  lemma {:induction false} StillThere(before: Space, s: Space, found: seq<Line>, wanted: seq<KernelMap>, i: nat,
                                      site: int, lost: bool, cut: bool)
    requires ReadyToMove(before, found, wanted, site)
    requires i < |wanted| == |found| && MovedSoFar(before, s, found, wanted, i, site, lost, cut)
    ensures !Missing(s.lines, NameOf(wanted[i]))
  {
    hide ElsewhereKept, ContentsMoved, SiteKept, Executable, NameOf;
    assert LowestNamed(s.lines, found[i]) && found[i].name == NameOf(wanted[i]);
  }

  lemma {:induction false} NoMoves(wanted: seq<KernelMap>)
    requires wanted == []
    ensures MoveSteps([], wanted) == []
  {
  }

  lemma {:induction false} NothingMoved(s: Space, found: seq<Line>, wanted: seq<KernelMap>, site: int, lost: bool, cut: bool)
    requires ReadyToMove(s, found, wanted, site)
    ensures |found| == |wanted| && MovedSoFar(s, s, found, wanted, 0, site, lost, cut)
  {
    hide Plan, WantedOk, SiteKept, LowestNamed;
  }

  /** The second lookup finds what the first one found, and it is not in place yet. */
  lemma {:induction false} SecondLookup(lines: set<Line>, found: seq<Line>, wanted: seq<KernelMap>, i: nat, l: Line, cut: bool)
    requires i < |wanted| && WantedOk(wanted) && Plan(found, wanted) && Moving(lines, found, wanted, i, cut)
    requires l.name == NameOf(wanted[i]) && l.size > 0 && LowestNamed(lines, l)
    ensures l == found[i] && l.size == wanted[i].size && l.start != wanted[i].start
    ensures LinesApart(found[i], WantedLine(wanted[i])) && NameOf(wanted[i]) != []
  {
    assert LowestNamed(lines, found[i]);
    assert LinesApart(found[i], WantedLine(wanted[i]));
    assert l.start == found[i].start;
    assert l == found[i] || LinesApart(l, found[i]);
  }

  /** The mapping the fresh program had under this name is now at its wanted place, cell for cell. */
  ghost predicate Brought(before: Space, after: Space, k: KernelMap) {
    && WantedLine(k) in after.lines
    && exists l :: BroughtFrom(before, after, l, k)
  }

  ghost predicate BroughtFrom(before: Space, after: Space, l: Line, k: KernelMap) {
    LowestNamed(before.lines, l) && l.name == NameOf(k) && l.size == k.size && MovedTo(before, after, l, k.start)
  }

  /**
   Every wanted mapping is at its place with its contents, unless a move was cut
   off; memory outside the ranges involved is untouched.
   */
  ghost predicate Relocated(before: Space, after: Space, found: seq<Line>, wanted: seq<KernelMap>, at: int, lost: bool, cut: bool) {
    && |found| == |wanted|
    && (!cut ==> forall i :: 0 <= i < |wanted| ==> Brought(before, after, wanted[i]))
    && ElsewhereKept(before, after, found, wanted, at, lost)
  }

  /** The lookups of the survey, then the second lookups and the moves. */
  function KernelMapSteps(found: seq<Line>, from: seq<Line>, wanted: seq<KernelMap>): seq<Report>
    requires |from| == |wanted|
  {
    Lookups(found) + MoveSteps(from, wanted)
  }

  /**
   Moves the kernel mappings of the child to their recorded addresses, or
   refuses. Whatever is wanted, success means that every mapping was looked up,
   had the wanted size and passed the guard, and that every move was made. It
   refuses for a failed call, an unmet mapping or hulls that meet, and otherwise
   only when a wanted mapping has gone from the list between the two loops.
   */
  method RestoreKernelMaps(c: Tracee, wanted: seq<KernelMap>)
    returns (ok: bool, ghost found: seq<Line>, ghost from: seq<Line>)
    requires c.Live()
    modifies c`space, c`regs, c`fds, c`lost, c`reported, c`cut, c`phase, c`endSeen, c`failed
    ensures c.Followed() && (ok ==> c.Live()) && (old(c.lost) ==> c.lost) && old(c.cut) <= c.cut
    ensures if ok then c.failed == old(c.failed) else old(c.failed) ==> c.failed
    ensures !ok ==> c.failed || MapsRefused(old(c.space), c.space, wanted, old(c.regs[RIP]))
    ensures RoomFor(old(c.space.lines), wanted) && Movable(old(c.space), wanted, old(c.regs[RIP])) && !c.failed ==> ok
    ensures ok ==> SurveyPassed(old(c.space.lines), found, wanted) && NamedAs(from, wanted)
    ensures ok ==> c.reported == old(c.reported) + KernelMapSteps(found, from, wanted)
    ensures ok ==> c.regs == old(c.regs) && c.fds == old(c.fds)
    ensures ok && Movable(old(c.space), wanted, old(c.regs[RIP])) ==>
      && Relocated(old(c.space), c.space, found, wanted, old(c.regs[RIP]), c.lost, SYS_MREMAP in c.cut) && from == found
      && Executable(c.space, c.regs[RIP])
  {
    hide Surveyed, Tight, Unmet, HullsMeet, RoomFor, Missing, SurveyPassed, MovedSoFar, ReadyToMove, WantedOk, LinesOk, Executable,
      SiteClear, Relocated, Lookups, MoveSteps, NameOf, NamedAs;
    ghost var before := c.space;
    found, from := [], [];
    if |wanted| == 0 {
      NothingToMove(c.space, wanted, c.regs[RIP], c.lost, SYS_MREMAP in c.cut);
      return true, [], [];
    }
    var childLow, childHigh, wantedLow, wantedHigh;
    ok, childLow, childHigh, wantedLow, wantedHigh, found := SurveyKernelMaps(c, wanted);
    if !ok {
      RoomMeans(before, c.space, wanted, c.regs[RIP]);
      return;
    }
    if childLow < wantedHigh && wantedLow < childHigh {
      GuardFailed(before.lines, found, wanted, childLow, childHigh, wantedLow, wantedHigh);
      RoomMeans(before, c.space, wanted, c.regs[RIP]);
      return false, found, [];
    }
    GuardPassed(c.space.lines, found, wanted, childLow, childHigh, wantedLow, wantedHigh);
    ghost var movable := Movable(c.space, wanted, c.regs[RIP]);
    if movable {
      NowReady(c.space, found, wanted, c.regs[RIP]);
    }
    ok, from := MoveKernelMaps(c, wanted, found);
    if ok && movable {
      NowRelocated(old(c.space), c.space, found, wanted, c.regs[RIP], c.lost, SYS_MREMAP in c.cut);
    }
  }

  /** The reasons against the kernel mappings, stated on the mapping lists at the start and at the end. */
  ghost predicate MapsRefused(before: Space, after: Space, wanted: seq<KernelMap>, site: int) {
    || (exists i :: 0 <= i < |wanted| && Unmet(before.lines, wanted[i]))
    || (exists found :: HullsMeet(before.lines, found, wanted))
    || (!Movable(before, wanted, site) && exists i :: 0 <= i < |wanted| && Missing(after.lines, NameOf(wanted[i])))
  }

  /** Every wanted mapping is there with its size, and all of them lie on one side of all the wanted places. */
  ghost predicate RoomFor(lines: set<Line>, wanted: seq<KernelMap>) {
    && (forall i :: 0 <= i < |wanted| ==> !Unmet(lines, wanted[i]))
    && (|| (forall l, j :: LowestWanted(lines, wanted, l) && 0 <= j < |wanted| ==> End(WantedLine(wanted[j])) <= l.start)
        || (forall l, j :: LowestWanted(lines, wanted, l) && 0 <= j < |wanted| ==> End(l) <= wanted[j].start))
  }

  ghost predicate LowestWanted(lines: set<Line>, wanted: seq<KernelMap>, l: Line) {
    LowestNamed(lines, l) && exists i :: 0 <= i < |wanted| && NameOf(wanted[i]) == l.name
  }

  /** Where there is room and the moves are well set up, there is no reason against them. */
  lemma {:induction false} RoomMeans(before: Space, after: Space, wanted: seq<KernelMap>, site: int)
    ensures RoomFor(before.lines, wanted) && Movable(before, wanted, site) ==> !MapsRefused(before, after, wanted, site)
  {
    hide NameOf, End, Movable, LowestNamed, HullsMeet, RoomFor;
    if RoomFor(before.lines, wanted) {
      forall found ensures !HullsMeet(before.lines, found, wanted) {
        RoomNoMeeting(before.lines, found, wanted);
      }
      NoneUnmet(before.lines, wanted);
    }
  }

  lemma {:induction false} NoneUnmet(lines: set<Line>, wanted: seq<KernelMap>)
    requires RoomFor(lines, wanted)
    ensures forall i :: 0 <= i < |wanted| ==> !Unmet(lines, wanted[i])
  {
    hide NameOf, End, LowestWanted, LowestNamed, Unmet;
  }

  lemma {:induction false} RoomNoMeeting(lines: set<Line>, found: seq<Line>, wanted: seq<KernelMap>)
    requires RoomFor(lines, wanted)
    ensures !HullsMeet(lines, found, wanted)
  {
    hide NameOf, End, LowestNamed;
    if |found| == |wanted| && forall i :: 0 <= i < |wanted| ==> FoundFor(lines, found[i], wanted[i]) {
      forall i | 0 <= i < |found| ensures LowestWanted(lines, wanted, found[i]) {
        assert FoundFor(lines, found[i], wanted[i]) && !Unmet(lines, wanted[i]);
      }
    }
  }

  /** What a relocation starts from. */
  ghost predicate Movable(s: Space, wanted: seq<KernelMap>, site: int) {
    WantedOk(wanted) && LinesOk(s.lines) && SiteClear(s.lines, wanted, site) && Executable(s, site)
  }

  lemma {:induction false} NothingToMove(s: Space, wanted: seq<KernelMap>, site: int, lost: bool, cut: bool)
    requires |wanted| == 0
    ensures SurveyPassed(s.lines, [], wanted) && Relocated(s, s, [], wanted, site, lost, cut)
    ensures Lookups([]) == [] && MoveSteps([], wanted) == [] && NamedAs([], wanted)
  {
  }

  lemma {:induction false} NowReady(s: Space, found: seq<Line>, wanted: seq<KernelMap>, site: int)
    requires Movable(s, wanted, site) && SurveyPassed(s.lines, found, wanted)
    ensures ReadyToMove(s, found, wanted, site)
  {
    hide WantedOk, LinesOk, Executable, Plan, Moving;
    HullsApart(s.lines, found, wanted);
  }

  lemma {:induction false} NowRelocated(before: Space, after: Space, found: seq<Line>, wanted: seq<KernelMap>, site: int, lost: bool, cut: bool)
    requires ReadyToMove(before, found, wanted, site) && MovedSoFar(before, after, found, wanted, |wanted|, site, lost, cut)
    ensures Relocated(before, after, found, wanted, site, lost, cut) && Executable(after, site)
  {
    hide WantedOk, ElsewhereKept, SiteKept, LowestNamed, MovedTo, NameOf, Executable;
    KeptExecutable(before, after, found, wanted, site, lost);
    forall i | 0 <= i < |wanted| && !cut ensures Brought(before, after, wanted[i]) {
      assert BroughtFrom(before, after, found[i], wanted[i]);
    }
  }
}
