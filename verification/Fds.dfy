/** What the engine does with one open descriptor, decided from what the kernel reports about it. */
module Fds {
  import opened Bytes

  datatype Stat = Stat(regular: bool, device: nat, inode: nat)

  datatype FdInfo = FdInfo(position: U64, flags: U32)

  /**
   One entry of the descriptor directory with the answers the kernel gives about
   it: the link text, the file behind the link, the file at that path, and the
   offset and flags.
   */
  datatype FdView = FdView(fd: I32, link: Option<seq<Byte>>, target: Option<Stat>, byPath: Option<Stat>, info: Option<FdInfo>)

  datatype FdClass = FdDump | FdSkipStdio | FdSkipVolatile | FdSkipUnreachable | FdSkipOther | FdUnreadable

  const SOCKET: seq<Byte> := [115, 111, 99, 107, 101, 116, 58] // "socket:"
  const PIPE: seq<Byte> := [112, 105, 112, 101, 58] // "pipe:"
  const ANON_INODE: seq<Byte> := [97, 110, 111, 110, 95, 105, 110, 111, 100, 101, 58] // "anon_inode:"
  const DELETED: seq<Byte> := [32, 40, 100, 101, 108, 101, 116, 101, 100, 41] // " (deleted)"

  const STDERR: int := 2

  predicate EndsWith(s: seq<Byte>, suffix: seq<Byte>) {
    |s| >= |suffix| && s[|s| - |suffix|..] == suffix
  }

  function ClassifyFd(v: FdView): FdClass {
    if v.fd <= STDERR then FdSkipStdio
    else if v.link.None? then FdUnreadable
    else if SOCKET <= v.link.value || PIPE <= v.link.value || ANON_INODE <= v.link.value
      then FdSkipVolatile
    else if v.target.None? then FdUnreadable
    else if !v.target.value.regular then FdSkipOther
    else if |v.link.value| > |DELETED| && EndsWith(v.link.value, DELETED) then FdSkipUnreachable
    else if v.byPath.None? || v.byPath.value.device != v.target.value.device
            || v.byPath.value.inode != v.target.value.inode
      then FdSkipUnreachable
    else FdDump
  }

  /** A link text that names no file: the kernel prints the kind of object there instead. */
  predicate Nameless(link: seq<Byte>) {
    SOCKET <= link || PIPE <= link || ANON_INODE <= link
  }

  /** Opening the link text again would reach the very file that is open. */
  ghost predicate Reachable(v: FdView) {
    && v.link.Some? && v.target.Some? && v.byPath.Some?
    && (v.byPath.value.device, v.byPath.value.inode) == (v.target.value.device, v.target.value.inode)
    && !(|v.link.value| > 10 && Ends(v.link.value, " (deleted)"))
  }

  /**
   What the rule order of the classifier comes to: a descriptor travels iff it is
   a regular file above stdio that its own name still reaches, and a dump gives up
   on one iff it cannot learn that of a descriptor it would have to carry.
   */
  lemma {:induction false} CarriedExactly(v: FdView)
    ensures ClassifyFd(v) == FdDump
       <==> v.fd > 2 && Reachable(v) && v.target.value.regular && !NamesNoFile(v.link.value)
    ensures ClassifyFd(v) == FdUnreadable
       <==> v.fd > 2 && (v.link.None? || (!NamesNoFile(v.link.value) && v.target.None?))
  {
    if v.link.Some? {
      NamelessSpelt(v.link.value);
    }
  }

  /** The classes the descriptor counts of a check are made of, by number and name. */
  lemma {:induction false} CountedExactly(v: FdView)
    ensures ClassifyFd(v) == FdSkipStdio <==> v.fd in {0, 1, 2} || v.fd < 0
    ensures ClassifyFd(v) == FdSkipVolatile <==> v.fd > 2 && v.link.Some? && NamesNoFile(v.link.value)
    ensures ClassifyFd(v) == FdSkipOther <==>
      v.fd > 2 && v.link.Some? && !NamesNoFile(v.link.value) && v.target.Some? && !v.target.value.regular
  {
    if v.link.Some? {
      NamelessSpelt(v.link.value);
    }
  }

  /** What the kernel prints for a descriptor with no file behind it. */
  predicate NamesNoFile(link: seq<Byte>) {
    Begins(link, "socket:") || Begins(link, "pipe:") || Begins(link, "anon_inode:")
  }

  lemma {:induction false} NamelessSpelt(link: seq<Byte>)
    ensures Nameless(link) <==> NamesNoFile(link)
    ensures |link| >= 10 ==> (Ends(link, " (deleted)") <==> EndsWith(link, DELETED))
  {
    assert Spells(SOCKET, "socket:") && Spells(PIPE, "pipe:");
    assert Spells(ANON_INODE, "anon_inode:") && Spells(DELETED, " (deleted)");
    SameName(SOCKET, "socket:", link);
    SameName(PIPE, "pipe:", link);
    SameName(ANON_INODE, "anon_inode:", link);
    if |link| >= 10 {
      SameEnding(DELETED, " (deleted)", link);
    }
  }

  /** The entries of one class, in directory order. */
  function FdsOfClass(views: seq<FdView>, c: FdClass): seq<FdView>
  {
    if views == [] then []
    else
      var last := views[|views| - 1];
      FdsOfClass(views[..|views| - 1], c) + (if ClassifyFd(last) == c then [last] else [])
  }

  lemma {:induction false} FdsOfClassStep(views: seq<FdView>, i: nat, c: FdClass)
    requires i < |views|
    ensures FdsOfClass(views[..i + 1], c)
         == if ClassifyFd(views[i]) == c then FdsOfClass(views[..i], c) + [views[i]] else FdsOfClass(views[..i], c)
  {
    assert views[..i + 1][..i] == views[..i];
    assert FdsOfClass(views[..i], c) + [] == FdsOfClass(views[..i], c);
  }

  lemma {:induction false} FdsOfClassMember(views: seq<FdView>, c: FdClass, v: FdView)
    ensures v in FdsOfClass(views, c) <==> v in views && ClassifyFd(v) == c
  {
    if views == [] {
    } else {
      var shorter := views[..|views| - 1];
      FdsOfClassMember(shorter, c, v);
      assert views == shorter + [views[|views| - 1]];
    }
  }

  lemma {:induction false} FdsOfClassShort(views: seq<FdView>, c: FdClass)
    ensures |FdsOfClass(views, c)| <= |views|
  {
    if views != [] {
      FdsOfClassShort(views[..|views| - 1], c);
    }
  }

  lemma {:induction false} FdsOfClassLast(views: seq<FdView>, v: FdView, c: FdClass)
    ensures FdsOfClass(views + [v], c) == FdsOfClass(views, c) + if ClassifyFd(v) == c then [v] else []
  {
    assert (views + [v])[..|views|] == views;
  }

  // ----- walks that do not see everything -----

  /** `w` is `v` with some of the kernel's answers lost. */
  predicate Blurred(v: FdView, w: FdView) {
    && w.fd == v.fd
    && (w.link == v.link || w.link.None?)
    && (w.target == v.target || w.target.None?)
    && (w.byPath == v.byPath || w.byPath.None?)
    && (w.info == v.info || w.info.None?)
  }

  /** What the kernel answers about a descriptor; any answer may be lost. */
  method Ask(whole: FdView) returns (v: FdView)
    ensures Blurred(whole, v)
  {
    var link, target, byPath, info := *, *, *, *;
    v := FdView(whole.fd, if link then whole.link else None, if target then whole.target else None,
                if byPath then whole.byPath else None, if info then whole.info else None);
  }

  /** What a walk gets to see that may end early and lose answers on its way. */
  predicate Glimpse(views: seq<FdView>, seen: seq<FdView>) {
    |seen| <= |views| && forall i :: 0 <= i < |seen| ==> Blurred(views[i], seen[i])
  }

  /** The look at the path of a link is the one answer whose loss goes unnoticed where an unreadable descriptor is an error. */
  function Unnoticed(v: FdView, w: FdView): FdView {
    if w.byPath.None? then v.(byPath := None) else v
  }

  /** What a walk gets to see that may end early and lose only such answers. */
  predicate Skimmed(views: seq<FdView>, seen: seq<FdView>) {
    |seen| <= |views| && forall i :: 0 <= i < |seen| ==> seen[i] == views[i] || seen[i] == views[i].(byPath := None)
  }

  lemma {:induction false} LossUnnoticed(v: FdView, w: FdView)
    requires Blurred(v, w) && ClassifyFd(w) != FdUnreadable
    ensures ClassifyFd(w) == ClassifyFd(Unnoticed(v, w))
    ensures ClassifyFd(w) == FdDump && w.info.Some? ==> w == v == Unnoticed(v, w)
  {
  }

  lemma {:induction false} LossOnlyDrops(v: FdView, w: FdView)
    requires Blurred(v, w) && ClassifyFd(w) == FdDump
    ensures ClassifyFd(v) == FdDump
  {
  }

  /** Every descriptor that can travel was seen, and seen to. */
  predicate MissedNone(views: seq<FdView>, seen: seq<FdView>) {
    forall i :: 0 <= i < |views| && ClassifyFd(views[i]) == FdDump ==> i < |seen| && ClassifyFd(seen[i]) == FdDump
  }

  /** A walk counts at most what there is to carry, and all of it exactly when it missed none. */
  lemma {:induction false} GlimpseCounts(views: seq<FdView>, seen: seq<FdView>)
    requires Glimpse(views, seen)
    ensures |FdsOfClass(seen, FdDump)| <= |FdsOfClass(views, FdDump)|
    ensures |FdsOfClass(seen, FdDump)| == |FdsOfClass(views, FdDump)| <==> MissedNone(views, seen)
  {
    if views != [] {
      hide ClassifyFd, FdsOfClass, Blurred;
      var n := |views| - 1;
      var rest := if |seen| == |views| then seen[..n] else seen;
      GlimpseFront(views, seen, rest);
      hide Glimpse, MissedNone;
      GlimpseCounts(views[..n], rest);
      MissedNoneLast(views, seen, rest);
      CountLast(views);
      if |seen| == |views| {
        CountLast(seen);
        if ClassifyFd(seen[n]) == FdDump {
          LossOnlyDrops(views[n], seen[n]);
        }
      }
    }
  }

  lemma {:induction false} GlimpseFront(views: seq<FdView>, seen: seq<FdView>, rest: seq<FdView>)
    requires views != [] && Glimpse(views, seen) && rest == if |seen| == |views| then seen[..|views| - 1] else seen
    ensures Glimpse(views[..|views| - 1], rest)
    ensures |seen| == |views| ==> Blurred(views[|views| - 1], seen[|views| - 1])
  {
    hide Blurred;
    var front := views[..|views| - 1];
    forall i | 0 <= i < |rest| ensures Blurred(front[i], rest[i]) {
      assert front[i] == views[i] && rest[i] == seen[i];
    }
  }

  lemma {:induction false} CountLast(views: seq<FdView>)
    requires views != []
    ensures var n := |views| - 1;
      |FdsOfClass(views, FdDump)| == |FdsOfClass(views[..n], FdDump)| + if ClassifyFd(views[n]) == FdDump then 1 else 0
  {
    hide ClassifyFd;
  }

  lemma {:induction false} MissedNoneLast(views: seq<FdView>, seen: seq<FdView>, rest: seq<FdView>)
    requires views != [] && |seen| <= |views| && rest == if |seen| == |views| then seen[..|views| - 1] else seen
    ensures var n := |views| - 1;
      MissedNone(views, seen) <==>
      MissedNone(views[..n], rest) && (ClassifyFd(views[n]) == FdDump ==> n < |seen| && ClassifyFd(seen[n]) == FdDump)
  {
    hide ClassifyFd;
    var n := |views| - 1;
    if MissedNone(views, seen) {
      forall i | 0 <= i < n && ClassifyFd(views[..n][i]) == FdDump ensures i < |rest| && ClassifyFd(rest[i]) == FdDump {
        assert views[..n][i] == views[i];
      }
    }
    if MissedNone(views[..n], rest) && (ClassifyFd(views[n]) == FdDump ==> n < |seen| && ClassifyFd(seen[n]) == FdDump) {
      forall i | 0 <= i < |views| && ClassifyFd(views[i]) == FdDump ensures i < |seen| && ClassifyFd(seen[i]) == FdDump {
        if i < n {
          assert views[..n][i] == views[i];
        }
      }
    }
  }
}
