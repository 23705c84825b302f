/** The numbered console feed a browser polls with a cursor. */
module Logbook {

  datatype Entry = Entry(number: nat, level: string, source: string, message: string)

  /** The retained entries and the next number to hand out. */
  datatype Log = Log(entries: seq<Entry>, next: nat)

  // ----- the feed as a value -----

  /** The last `n` entries: what a queue of bounded length keeps. */
  function LastOf(entries: seq<Entry>, n: nat): seq<Entry> {
    if |entries| <= n then entries else entries[|entries| - n..]
  }

  function Added(log: Log, capacity: nat, level: string, source: string, message: string): Log {
    Log(LastOf(log.entries + [Entry(log.next, level, source, message)], capacity), log.next + 1)
  }

  function Newer(entries: seq<Entry>, cursor: int): (r: seq<Entry>)
    ensures forall e :: e in r <==> e in entries && e.number > cursor
  {
    if entries == [] then []
    else if entries[0].number > cursor then [entries[0]] + Newer(entries[1..], cursor)
    else Newer(entries[1..], cursor)
  }

  lemma {:induction false} NewerFrom(entries: seq<Entry>, i: nat, cursor: int)
    requires i < |entries|
    ensures Newer(entries[i..], cursor)
         == (if entries[i].number > cursor then [entries[i]] else []) + Newer(entries[i + 1..], cursor)
  {
    assert entries[i..][1..] == entries[i + 1..];
  }

  lemma {:induction false} NewerOfNone(entries: seq<Entry>, cursor: int)
    requires entries == []
    ensures Newer(entries, cursor) == []
  {
  }

  /** The retained entries carry consecutive numbers that end at the last one issued. */
  predicate Consecutive(log: Log) {
    && |log.entries| < log.next
    && forall i :: 0 <= i < |log.entries| ==> log.entries[i].number == log.next - |log.entries| + i
  }

  // ----- the feed as the object it is -----

  class Logbook {
    const capacity: nat
    var entries: seq<Entry>
    var nextSeq: nat

    function Value(): Log
      reads this
    {
      Log(entries, nextSeq)
    }

    ghost predicate Valid()
      reads this
    {
      Consecutive(Value()) && |entries| <= capacity
    }

    constructor (capacity: nat)
      ensures Valid() && Value() == Log([], 1) && this.capacity == capacity
    {
      this.capacity := capacity;
      entries := [];
      nextSeq := 1;
    }

    /** Records one line under the lock. */
    method AppendLine(message: string, level: string, source: string) returns (entry: Entry)
      requires Valid()
      modifies this
      ensures Valid() && Value() == Added(old(Value()), capacity, level, source, message)
      ensures entry == Entry(old(nextSeq), level, source, message) && nextSeq == old(nextSeq) + 1
    {
      entry := Entry(nextSeq, level, source, message);
      nextSeq := nextSeq + 1;
      entries := entries + [entry];
      if |entries| > capacity {
        entries := entries[|entries| - capacity..];
      }
    }

    /** Records every line of a message, or one empty line, and returns the last entry. */
    method Append(lines: seq<string>, level: string, source: string) returns (entry: Entry)
      requires Valid()
      modifies this
      ensures Valid() && Value() == AddedAll(old(Value()), capacity, level, source, if lines == [] then [""] else lines)
      ensures var all := if lines == [] then [""] else lines;
        && nextSeq == old(nextSeq) + |all|
        && IsSuffix(entries, old(entries) + Numbered(old(nextSeq), level, source, all))
        && |entries| == Least(capacity, |old(entries)| + |all|)
        && entry == Entry(old(nextSeq) + |all| - 1, level, source, all[|all| - 1])
    {
      hide IsSuffix, Numbered, Least, Consecutive, Added;
      var all := if lines == [] then [""] else lines;
      AddedAllRecords(Value(), capacity, level, source, all);
      entry := Entry(0, level, source, "");
      for i := 0 to |all|
        invariant Valid() && Value() == AddedAll(old(Value()), capacity, level, source, all[..i])
        invariant nextSeq == old(nextSeq) + i
        invariant i > 0 ==> entry == Entry(nextSeq - 1, level, source, all[i - 1])
      {
        assert all[..i + 1][..i] == all[..i];
        entry := AppendLine(all[i], level, source);
      }
      assert all[..|all|] == all;
    }

    /** The entries newer than a cursor, and the cursor to ask with next time. */
    method Since(cursor: int) returns (newer: seq<Entry>, next: nat)
      requires Valid()
      ensures newer == Newer(entries, cursor) && next == nextSeq - 1
    {
      hide Newer;
      newer := [];
      assert entries[0..] == entries;
      for i := 0 to |entries|
        invariant newer + Newer(entries[i..], cursor) == Newer(entries, cursor)
      {
        NewerFrom(entries, i, cursor);
        if entries[i].number > cursor {
          newer := newer + [entries[i]];
        }
      }
      NewerOfNone(entries[|entries|..], cursor);
      next := nextSeq - 1;
    }

    method Clear()
      requires Valid()
      modifies this
      ensures Valid() && Value() == Log([], old(nextSeq))
    {
      entries := [];
    }
  }

  function AddedAll(log: Log, capacity: nat, level: string, source: string, lines: seq<string>): Log {
    if lines == [] then log
    else Added(AddedAll(log, capacity, level, source, lines[..|lines| - 1]), capacity, level, source, lines[|lines| - 1])
  }

  /** One entry for every line, under consecutive numbers. */
  function Numbered(first: nat, level: string, source: string, lines: seq<string>): (r: seq<Entry>)
    ensures |r| == |lines| && forall i :: 0 <= i < |lines| ==> r[i] == Entry(first + i, level, source, lines[i])
  {
    seq(|lines|, i requires 0 <= i < |lines| => Entry(first + i, level, source, lines[i]))
  }

  predicate IsSuffix(kept: seq<Entry>, all: seq<Entry>) {
    |kept| <= |all| && kept == all[|all| - |kept|..]
  }

  function Least(a: nat, b: nat): nat {
    if a < b then a else b
  }

  /** `after` is `log` with every one of the lines recorded, less what no longer fits at the front. */
  predicate Recorded(log: Log, after: Log, capacity: nat, level: string, source: string, lines: seq<string>) {
    && after.next == log.next + |lines|
    && |after.entries| == Least(capacity, |log.entries| + |lines|)
    && IsSuffix(after.entries, log.entries + Numbered(log.next, level, source, lines))
  }

  /** Adding lines one by one records every one of them, and drops only what no longer fits at the front. */
  lemma {:induction false} AddedAllRecords(log: Log, capacity: nat, level: string, source: string, lines: seq<string>)
    requires |log.entries| <= capacity
    ensures Recorded(log, AddedAll(log, capacity, level, source, lines), capacity, level, source, lines)
  {
    if lines == [] {
      assert log.entries + Numbered(log.next, level, source, lines) == log.entries;
    } else {
      hide Recorded;
      var n := |lines| - 1;
      AddedAllRecords(log, capacity, level, source, lines[..n]);
      OneMoreRecorded(log, AddedAll(log, capacity, level, source, lines[..n]), capacity, level, source, lines);
    }
  }

  lemma {:induction false} OneMoreRecorded(log: Log, before: Log, capacity: nat, level: string, source: string, lines: seq<string>)
    requires lines != [] && Recorded(log, before, capacity, level, source, lines[..|lines| - 1])
    ensures Recorded(log, Added(before, capacity, level, source, lines[|lines| - 1]), capacity, level, source, lines)
  {
    hide IsSuffix, LastOf, Numbered;
    var n := |lines| - 1;
    NumberedLast(log.entries, log.next, level, source, lines);
    SuffixAdded(before.entries, log.entries + Numbered(log.next, level, source, lines[..n]), Entry(log.next + n, level, source, lines[n]), capacity);
  }

  lemma {:induction false} NumberedLast(entries: seq<Entry>, first: nat, level: string, source: string, lines: seq<string>)
    requires lines != []
    ensures var n := |lines| - 1;
      entries + Numbered(first, level, source, lines)
      == (entries + Numbered(first, level, source, lines[..n])) + [Entry(first + n, level, source, lines[n])]
  {
    var n := |lines| - 1;
    assert Numbered(first, level, source, lines) == Numbered(first, level, source, lines[..n]) + [Entry(first + n, level, source, lines[n])];
  }

  lemma {:induction false} SuffixAdded(kept: seq<Entry>, all: seq<Entry>, entry: Entry, capacity: nat)
    requires IsSuffix(kept, all) && |kept| == Least(capacity, |all|)
    ensures IsSuffix(LastOf(kept + [entry], capacity), all + [entry])
    ensures |LastOf(kept + [entry], capacity)| == Least(capacity, |all| + 1)
  {
    assert kept + [entry] == (all + [entry])[|all| - |kept|..];
  }

  // ----- whole runs -----

  /** One step of a run: a line recorded, a poll of the one reader, a wipe. */
  datatype Op = Line(level: string, source: string, message: string) | Poll | Wipe

  /**
   A feed with its reader and its history: everything ever issued, everything
   the reader was given, and the numbers removed before the reader saw them.
   */
  datatype World = World(log: Log, cursor: int, issued: seq<Entry>, seen: seq<Entry>, missed: set<nat>)

  const START: World := World(Log([], 1), 0, [], [], {})

  function Unseen(entries: seq<Entry>, cursor: int): set<nat> {
    set e | e in entries && e.number > cursor :: e.number
  }

  function Step(w: World, capacity: nat, op: Op): World {
    match op
    case Line(level, source, message) =>
      var log := Added(w.log, capacity, level, source, message);
      var entry := Entry(w.log.next, level, source, message);
      w.(log := log, issued := w.issued + [entry],
         missed := w.missed + (Unseen(w.log.entries + [entry], w.cursor) - Unseen(log.entries, w.cursor)))
    case Poll =>
      w.(cursor := w.log.next - 1, seen := w.seen + Newer(w.log.entries, w.cursor))
    case Wipe =>
      w.(log := Log([], w.log.next), missed := w.missed + Unseen(w.log.entries, w.cursor))
  }

  function Run(capacity: nat, ops: seq<Op>): World {
    if ops == [] then START else Step(Run(capacity, ops[..|ops| - 1]), capacity, ops[|ops| - 1])
  }

  predicate Ascending(entries: seq<Entry>) {
    forall i, j :: 0 <= i < j < |entries| ==> entries[i].number < entries[j].number
  }

  /** The reader was given the entry with this number. */
  predicate Seen(seen: seq<Entry>, n: nat) {
    exists e :: e in seen && e.number == n
  }

  /** Every number issued is seen, missed or still to be seen, and no two of these. */
  ghost predicate Accounted(w: World) {
    && (forall n: nat :: 1 <= n < w.log.next ==> Seen(w.seen, n) || n in w.missed || n in Unseen(w.log.entries, w.cursor))
    && (forall n: nat :: n in w.missed ==> n < w.log.next && !Seen(w.seen, n) && n !in Unseen(w.log.entries, w.cursor))
  }

  /** Entries are issued in order, and an entry found anywhere is the one issued under its number. */
  ghost predicate Genuine(w: World) {
    && w.log.next == |w.issued| + 1
    && (forall i :: 0 <= i < |w.issued| ==> w.issued[i].number == i + 1)
    && (forall e :: e in w.log.entries || e in w.seen ==> e in w.issued)
  }

  /** What the reader was given: in order, nothing twice, nothing beyond its cursor. */
  predicate InOrder(w: World) {
    && 0 <= w.cursor < w.log.next
    && Ascending(w.seen)
    && forall e :: e in w.seen ==> e.number <= w.cursor
  }

  ghost predicate Sound(w: World, capacity: nat) {
    Consecutive(w.log) && |w.log.entries| <= capacity && Genuine(w) && InOrder(w) && Accounted(w)
  }

  lemma {:induction false} UnseenIs(log: Log, cursor: int, n: nat)
    requires Consecutive(log)
    ensures n in Unseen(log.entries, cursor) <==> log.next - |log.entries| <= n < log.next && n > cursor
  {
    if log.next - |log.entries| <= n < log.next {
      var e := log.entries[n - (log.next - |log.entries|)];
      assert e in log.entries && e.number == n;
    }
  }

  lemma {:induction false} AddedConsecutive(log: Log, capacity: nat, level: string, source: string, message: string)
    requires Consecutive(log) && |log.entries| <= capacity
    ensures var after := Added(log, capacity, level, source, message);
      Consecutive(after) && |after.entries| == if |log.entries| < capacity then |log.entries| + 1 else capacity
    ensures forall e :: e in Added(log, capacity, level, source, message).entries ==>
      e in log.entries || e == Entry(log.next, level, source, message)
  {
  }

  lemma {:induction false} LineSound(w: World, capacity: nat, op: Op)
    requires Sound(w, capacity) && op.Line?
    ensures Sound(Step(w, capacity, op), capacity)
  {
    var w' := Step(w, capacity, op);
    var entry := Entry(w.log.next, op.level, op.source, op.message);
    AddedConsecutive(w.log, capacity, op.level, op.source, op.message);
    var grown := Log(w.log.entries + [entry], w.log.next + 1);
    assert Consecutive(grown);
    forall n: nat ensures n in Unseen(grown.entries, w.cursor) <==> n in Unseen(w.log.entries, w.cursor) || n == w.log.next {
      UnseenIs(grown, w.cursor, n);
      UnseenIs(w.log, w.cursor, n);
    }
    forall n: nat | n in Unseen(w'.log.entries, w.cursor) ensures n in Unseen(grown.entries, w.cursor) {
      UnseenIs(w'.log, w.cursor, n);
      UnseenIs(grown, w.cursor, n);
    }
    assert w'.seen == w.seen && w'.cursor == w.cursor;
  }

  lemma {:induction false} NewerAscends(entries: seq<Entry>, cursor: int)
    requires Ascending(entries)
    ensures Ascending(Newer(entries, cursor))
  {
    if entries != [] {
      NewerAscends(entries[1..], cursor);
      assert forall e :: e in entries[1..] ==> e.number > entries[0].number;
    }
  }

  lemma {:induction false} PollSound(w: World, capacity: nat)
    requires Sound(w, capacity)
    ensures Sound(Step(w, capacity, Poll), capacity)
  {
    var w', newer := Step(w, capacity, Poll), Newer(w.log.entries, w.cursor);
    NewerAscends(w.log.entries, w.cursor);
    forall e | e in w.log.entries ensures e.number < w.log.next {
      var i :| 0 <= i < |w.log.entries| && w.log.entries[i] == e;
    }
    forall n: nat ensures Seen(w'.seen, n) <==> Seen(w.seen, n) || n in Unseen(w.log.entries, w.cursor) {
      if e :| e in w.seen && e.number == n {
        assert e in w'.seen;
      }
      if n in Unseen(w.log.entries, w.cursor) {
        var e :| e in w.log.entries && e.number > w.cursor && e.number == n;
        assert e in newer && e in w'.seen;
      }
    }
    forall n: nat ensures n !in Unseen(w.log.entries, w'.cursor) {
      UnseenIs(w.log, w'.cursor, n);
    }
  }

  lemma {:induction false} WipeSound(w: World, capacity: nat)
    requires Sound(w, capacity)
    ensures Sound(Step(w, capacity, Wipe), capacity)
  {
    var w' := Step(w, capacity, Wipe);
    forall n: nat | n in Unseen(w.log.entries, w.cursor) ensures n < w.log.next && !Seen(w.seen, n) {
      UnseenIs(w.log, w.cursor, n);
    }
  }

  /**
   Over every interleaving of lines, polls and wipes: the retained entries are
   consecutive and end at the last number issued; the reader, feeding its cursor
   back, sees every entry at most once, in order and as it was issued; and it
   misses exactly those that were evicted or wiped before it polled.
   */
  lemma {:induction false} EveryRunIsSound(capacity: nat, ops: seq<Op>)
    ensures Sound(Run(capacity, ops), capacity)
  {
    if ops == [] {
    } else {
      EveryRunIsSound(capacity, ops[..|ops| - 1]);
      var w, op := Run(capacity, ops[..|ops| - 1]), ops[|ops| - 1];
      match op
      case Line(_, _, _) => LineSound(w, capacity, op);
      case Poll => PollSound(w, capacity);
      case Wipe => WipeSound(w, capacity);
    }
  }

  // ----- no loss between close polls -----

  function Steps(w: World, capacity: nat, ops: seq<Op>): World {
    if ops == [] then w else Step(Steps(w, capacity, ops[..|ops| - 1]), capacity, ops[|ops| - 1])
  }

  function LineOps(level: string, source: string, lines: seq<string>): seq<Op> {
    seq(|lines|, i requires 0 <= i < |lines| => Line(level, source, lines[i]))
  }

  /** A message of several lines is that many steps of a run. */
  lemma {:induction false} MessageIsLines(w: World, capacity: nat, level: string, source: string, lines: seq<string>)
    ensures Steps(w, capacity, LineOps(level, source, lines)).log == AddedAll(w.log, capacity, level, source, lines)
  {
    if lines != [] {
      var n, ops := |lines| - 1, LineOps(level, source, lines);
      assert ops[..n] == LineOps(level, source, lines[..n]);
      MessageIsLines(w, capacity, level, source, lines[..n]);
    }
  }

  lemma {:induction false} LastKept(entries: seq<Entry>, entry: Entry, capacity: nat, n: nat)
    requires n <= |entries| <= capacity && n < capacity
    ensures var kept := LastOf(entries + [entry], capacity);
      n + 1 <= |kept| && kept[|kept| - (n + 1)..] == entries[|entries| - n..] + [entry]
  {
  }

  /** After `n` lines the log ends with them, and nothing else of the world has changed. */
  predicate Retains(w: World, after: World, capacity: nat, n: nat) {
    && Consecutive(after.log) && n <= |after.log.entries| <= capacity
    && after.log.next == w.log.next + n
    && after.issued == w.issued + after.log.entries[|after.log.entries| - n..]
    && after.seen == w.seen && after.cursor == w.cursor
  }

  lemma {:induction false} OneMoreRetained(w: World, before: World, capacity: nat, op: Op, n: nat)
    requires Retains(w, before, capacity, n) && op.Line? && n < capacity
    ensures Retains(w, Step(before, capacity, op), capacity, n + 1)
  {
    var entry := Entry(before.log.next, op.level, op.source, op.message);
    AddedConsecutive(before.log, capacity, op.level, op.source, op.message);
    LastKept(before.log.entries, entry, capacity, n);
    hide LastOf, Unseen, Consecutive;
    assert w.issued + (before.log.entries[|before.log.entries| - n..] + [entry])
        == (w.issued + before.log.entries[|before.log.entries| - n..]) + [entry];
  }

  lemma {:induction false} LinesRetained(w: World, capacity: nat, lines: seq<Op>)
    requires Consecutive(w.log) && |w.log.entries| <= capacity && |lines| <= capacity
    requires forall i :: 0 <= i < |lines| ==> lines[i].Line?
    ensures Retains(w, Steps(w, capacity, lines), capacity, |lines|)
  {
    if lines == [] {
      assert w.issued + [] == w.issued;
    } else {
      hide Retains, Step;
      var n := |lines| - 1;
      LinesRetained(w, capacity, lines[..n]);
      OneMoreRetained(w, Steps(w, capacity, lines[..n]), capacity, lines[n], n);
    }
  }

  lemma {:induction false} NewerIsSuffix(entries: seq<Entry>, cursor: int, k: nat)
    requires k <= |entries| && Ascending(entries)
    requires forall i :: 0 <= i < k ==> entries[i].number <= cursor
    requires forall i :: k <= i < |entries| ==> entries[i].number > cursor
    ensures Newer(entries, cursor) == entries[k..]
  {
    if entries != [] {
      NewerIsSuffix(entries[1..], cursor, if k == 0 then 0 else k - 1);
      if k == 0 {
        assert entries[k..] == [entries[0]] + entries[1..];
      } else {
        assert entries[1..][k - 1..] == entries[k..];
      }
    }
  }

  /** A reader whose cursor is `k` behind is given the last `k` entries. */
  lemma {:induction false} LastAreNewer(log: Log, cursor: int, k: nat)
    requires Consecutive(log) && k <= |log.entries| && cursor == log.next - 1 - k
    ensures Newer(log.entries, cursor) == log.entries[|log.entries| - k..]
  {
    hide Newer;
    NewerIsSuffix(log.entries, cursor, |log.entries| - k);
  }

  /** With no wipe and at most `capacity` lines between two polls, the second poll returns exactly those lines. */
  lemma {:induction false} ClosePollsSeeAll(capacity: nat, ops: seq<Op>, lines: seq<Op>)
    requires |lines| <= capacity && forall i :: 0 <= i < |lines| ==> lines[i].Line?
    ensures var polled := Step(Run(capacity, ops), capacity, Poll);
      var after := Steps(polled, capacity, lines);
      && |after.issued| == |polled.issued| + |lines|
      && Step(after, capacity, Poll).seen == polled.seen + after.issued[|polled.issued|..]
  {
    hide Run, Steps, Newer, Added, Genuine, Accounted, InOrder;
    EveryRunIsSound(capacity, ops);
    PollSound(Run(capacity, ops), capacity);
    var polled := Step(Run(capacity, ops), capacity, Poll);
    LinesRetained(polled, capacity, lines);
    var after := Steps(polled, capacity, lines);
    LastAreNewer(after.log, after.cursor, |lines|);
  }
}
