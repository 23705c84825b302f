/** Marks the descriptors that share an open file with a lower one. */
module SharedFiles {
  import opened Bytes
  import opened DumpFormat
  import opened PathPool
  import opened Target

  /** Entries `i` and `j` are descriptors of one open file. */
  predicate Shares(image: Image, fds: seq<Fd>, i: nat, j: nat)
    requires i < |fds| && j < |fds|
  {
    && fds[i].fd in image.fileOf && fds[j].fd in image.fileOf
    && image.fileOf[fds[i].fd] == image.fileOf[fds[j].fd]
  }

  /** The least entry that shares with `i`. */
  function Least(image: Image, fds: seq<Fd>, i: nat): (j: nat)
    requires i < |fds| && fds[i].fd in image.fileOf
    ensures j <= i && Shares(image, fds, j, i)
    ensures forall k :: 0 <= k < j ==> !Shares(image, fds, k, i)
  {
    LeastFrom(image, fds, i, 0)
  }

  function LeastFrom(image: Image, fds: seq<Fd>, i: nat, from: nat): (j: nat)
    requires i < |fds| && fds[i].fd in image.fileOf && from <= i
    requires forall k :: 0 <= k < from ==> !Shares(image, fds, k, i)
    ensures from <= j <= i && Shares(image, fds, j, i)
    ensures forall k :: 0 <= k < j ==> !Shares(image, fds, k, i)
    decreases i - from
  {
    if Shares(image, fds, from, i) then from else LeastFrom(image, fds, i, from + 1)
  }

  /** -1 for the least member of each class, its number for all the others. */
  predicate Canonical(image: Image, fds: seq<Fd>, i: nat)
    requires i < |fds|
  {
    && fds[i].fd in image.fileOf
    && var least := Least(image, fds, i);
       fds[i].dupOf == if least == i then -1 else fds[least].fd
  }

  predicate Relinked(before: seq<Fd>, after: seq<Fd>) {
    |after| == |before| && forall i :: 0 <= i < |before| ==> after[i] == before[i].(dupOf := after[i].dupOf)
  }

  /** Both entries carry their path in the pool, and one open file means one path. */
  predicate Comparable(image: Image, fds: seq<Fd>, pool: seq<Byte>) {
    && (forall i :: 0 <= i < |fds| ==> fds[i].fd in image.fileOf && fds[i].pathOffset <= |pool|)
    && (forall i, j :: 0 <= i < |fds| && 0 <= j < |fds| && Shares(image, fds, i, j)
          ==> CString(pool, fds[i].pathOffset) == CString(pool, fds[j].pathOffset))
  }

  lemma {:induction false} LeastOnlyNeedsNumbers(image: Image, before: seq<Fd>, after: seq<Fd>, i: nat)
    requires i < |before| == |after| && before[i].fd in image.fileOf
    requires forall k :: 0 <= k < |before| ==> before[k].fd == after[k].fd
    ensures Least(image, before, i) == Least(image, after, i)
  {
    var a, b := Least(image, before, i), Least(image, after, i);
    assert Shares(image, after, a, i) && Shares(image, before, b, i);
  }

  /** The first entry that is its own class and shares with `i` is the least of the class. */
  lemma {:induction false} FirstRepresentative(image: Image, fds: seq<Fd>, i: nat, j: nat)
    requires i < |fds| && j < i && Shares(image, fds, j, i)
    requires forall k :: 0 <= k < i ==> Canonical(image, fds, k) && fds[k].fd > 2
    requires fds[j].dupOf == -1
    ensures Least(image, fds, i) == j
  {
    var least := Least(image, fds, i);
    assert Shares(image, fds, least, j);
    assert Canonical(image, fds, j);
  }

  /** When no entry that is its own class shares with `i`, none does. */
  lemma {:induction false} NoRepresentative(image: Image, fds: seq<Fd>, i: nat)
    requires i < |fds| && fds[i].fd in image.fileOf
    requires forall k :: 0 <= k < i ==> Canonical(image, fds, k)
    requires forall k :: 0 <= k < i && fds[k].dupOf == -1 ==> !Shares(image, fds, k, i)
    ensures Least(image, fds, i) == i
  {
    var least := Least(image, fds, i);
    if least < i {
      assert Canonical(image, fds, least);
      var lower := Least(image, fds, least);
      assert Shares(image, fds, lower, i);
      assert false;
    }
  }

  /** Linking entry `i` makes it canonical and leaves the entries before it canonical. */
  lemma {:induction false} LinkedEntry(image: Image, table: seq<Fd>, after: seq<Fd>, i: nat)
    requires i < |table| && table[i].fd in image.fileOf
    requires forall k :: 0 <= k < i ==> Canonical(image, table, k)
    requires var least := Least(image, table, i);
             after == table[i := table[i].(dupOf := if least == i then -1 else table[least].fd)]
    ensures forall k :: 0 <= k <= i ==> Canonical(image, after, k)
  {
    forall k | 0 <= k <= i ensures Canonical(image, after, k) {
      assert k < i ==> Canonical(image, table, k);
      LeastOnlyNeedsNumbers(image, table, after, k);
    }
  }

  /** The paths of the two entries are equal, so that they may be one open file. */
  predicate SamePath(fds: seq<Fd>, i: nat, j: nat, pool: seq<Byte>) {
    && i < |fds| && j < |fds| && fds[i].pathOffset <= |pool| && fds[j].pathOffset <= |pool|
    && CString(pool, fds[i].pathOffset) == CString(pool, fds[j].pathOffset)
  }

  /** One round of the outer loop: looks for the representative of entry `i` below it. */
  method LinkEntry(host: Host, fds: array<Fd>, i: nat, pool: seq<Byte>) returns (failed: bool)
    requires i < fds.Length && fds[i].dupOf == -1
    requires Comparable(host.Seen(), fds[..], pool)
    requires forall k :: 0 <= k < i ==> Canonical(host.Seen(), fds[..], k)
    requires forall k :: 0 <= k < fds.Length ==> fds[k].fd > 2
    modifies fds, host`kcmpBroken
    ensures failed ==> host.kcmpBroken && fds[..] == old(fds[..])
    ensures failed ==> exists j :: 0 <= j < i && SamePath(fds[..], j, i, pool)
    ensures !failed ==> host.kcmpBroken == old(host.kcmpBroken)
    ensures !failed ==>
      var least := Least(host.Seen(), old(fds[..]), i);
      fds[..] == old(fds[..])[i := old(fds[i]).(dupOf := if least == i then -1 else old(fds[least].fd))]
  {
    ghost var table := fds[..];
    var path := CString(pool, fds[i].pathOffset);
    for j := 0 to i
      invariant fds[..] == table
      invariant host.kcmpBroken == old(host.kcmpBroken)
      invariant forall k :: 0 <= k < j && table[k].dupOf == -1 ==> !Shares(host.Seen(), table, k, i)
    {
      assert table[j] == fds[j] && table[i] == fds[i];
      if fds[j].dupOf != -1 || path != CString(pool, fds[j].pathOffset) {
        continue;
      }
      var order := host.CompareFiles(fds[j].fd, fds[i].fd);
      if order == -1 {
        assert SamePath(fds[..], j, i, pool);
        return true;
      }
      if order == 0 {
        assert Shares(host.Seen(), table, j, i);
        FirstRepresentative(host.Seen(), table, i, j);
        fds[i] := fds[i].(dupOf := fds[j].fd);
        return false;
      }
    }
    NoRepresentative(host.Seen(), table, i);
    return false;
  }

  /**
   Links every entry to the least descriptor of its open file. A comparison that
   fails ends the pass: the `done` entries before it are exact, the rest stay
   files of their own, so no two different files are ever linked. Only entries of
   one path are compared at all.
   */
  method FindSharedFiles(host: Host, fds: array<Fd>, pool: seq<Byte>) returns (ghost done: nat)
    requires Comparable(host.Seen(), fds[..], pool)
    requires forall i :: 0 <= i < fds.Length ==> fds[i].dupOf == -1 && fds[i].fd > 2
    modifies fds, host`kcmpBroken
    ensures Relinked(old(fds[..]), fds[..])
    ensures done <= fds.Length
    ensures forall i :: 0 <= i < done ==> Canonical(host.Seen(), fds[..], i)
    ensures forall i :: done <= i < fds.Length ==> fds[i].dupOf == -1
    ensures !host.kcmpBroken ==> done == fds.Length
    ensures done < fds.Length ==> exists j :: 0 <= j < done && SamePath(fds[..], j, done, pool)
  {
    hide SamePath, Canonical, Comparable, Relinked, Shares;
    ghost var before := fds[..];
    NothingRelinked(host.Seen(), before, pool);
    done := if fds.Length == 0 then 0 else 1;
    var i := 1;
    while i < fds.Length
      invariant done == if fds.Length == 0 then 0 else i
      invariant 1 <= i && (fds.Length > 0 ==> i <= fds.Length)
      invariant Relinked(before, fds[..]) && Comparable(host.Seen(), fds[..], pool)
      invariant forall k :: 0 <= k < done ==> Canonical(host.Seen(), fds[..], k)
      invariant forall k :: done <= k < fds.Length ==> fds[k].dupOf == -1
    {
      ghost var table := fds[..];
      RelinkedNumbers(before, table);
      var failed := LinkEntry(host, fds, i, pool);
      if failed {
        return;
      }
      RelinkedMore(host.Seen(), before, table, fds[..], i, pool);
      LinkedEntry(host.Seen(), table, fds[..], i);
      i := i + 1;
      done := done + 1;
    }
  }

  lemma {:induction false} NothingRelinked(image: Image, fds: seq<Fd>, pool: seq<Byte>)
    requires Comparable(image, fds, pool) && forall i :: 0 <= i < |fds| ==> fds[i].dupOf == -1
    ensures Relinked(fds, fds)
    ensures |fds| > 0 ==> Canonical(image, fds, 0)
  {
  }

  lemma {:induction false} RelinkedNumbers(before: seq<Fd>, after: seq<Fd>)
    requires Relinked(before, after) && forall i :: 0 <= i < |before| ==> before[i].fd > 2
    ensures |after| == |before| && forall i :: 0 <= i < |after| ==> after[i].fd > 2
  {
  }

  lemma {:induction false} RelinkedMore(image: Image, before: seq<Fd>, table: seq<Fd>, after: seq<Fd>, i: nat, pool: seq<Byte>)
    requires Relinked(before, table) && Comparable(image, table, pool) && i < |table| == |after|
    requires after == table[i := table[i].(dupOf := after[i].dupOf)]
    ensures Relinked(before, after) && Comparable(image, after, pool) && table[i].fd in image.fileOf
  {
    forall a, b | 0 <= a < |after| && 0 <= b < |after| && Shares(image, after, a, b) ensures Shares(image, table, a, b) {
    }
  }

  /** With every comparison made, two entries end at the same representative iff they share an open file. */
  lemma {:induction false} SameRepresentativeIffShared(image: Image, fds: seq<Fd>, i: nat, j: nat)
    requires i < |fds| && j < |fds|
    requires forall a, b :: 0 <= a < b < |fds| ==> fds[a].fd < fds[b].fd
    requires forall k :: 0 <= k < |fds| ==> Canonical(image, fds, k) && fds[k].fd > 2
    ensures (if fds[i].dupOf == -1 then fds[i].fd else fds[i].dupOf) == (if fds[j].dupOf == -1 then fds[j].fd else fds[j].dupOf)
       <==> Shares(image, fds, i, j)
  {
    assert Canonical(image, fds, i) && Canonical(image, fds, j);
    var a, b := Least(image, fds, i), Least(image, fds, j);
    if Shares(image, fds, i, j) {
      assert Shares(image, fds, a, j) && Shares(image, fds, b, i);
      assert a == b;
    } else {
      assert a != b;
      assert fds[a].fd != fds[b].fd;
    }
  }
}
