// The page allocator that can replace the heap: a table of flag bytes, one for
// each page of 256 bytes (src/falloc.c).
module PageAllocator {
  // PAGE_TAKEN is bit 0 and PAGE_LAST bit 1 of a page's flags.
  predicate IsFree(f: bv8) { f & 1 == 0 }

  predicate IsLast(f: bv8) { f & 2 != 0 }

  // Pages s to s + m - 1 are taken and the last of them says so.
  ghost predicate Run(flags: seq<bv8>, s: nat, m: nat) {
    && m >= 1 && s + m <= |flags|
    && (forall j :: s <= j < s + m ==> flags[j] == if j == s + m - 1 then 3 else 1)
  }

  ghost predicate Gap(flags: seq<bv8>, s: nat, m: nat) {
    s + m <= |flags| && forall j :: s <= j < s + m ==> flags[j] == 0
  }

  predicate Within(live: map<nat, nat>, s: nat, j: nat) { s in live && s <= j < s + live[s] }

  // The live allocations, by first page: the flags of each are a run, the runs
  // do not overlap, and every other page is free.
  ghost predicate Represents(flags: seq<bv8>, live: map<nat, nat>) {
    && (forall s :: s in live ==> Run(flags, s, live[s]))
    && (forall s, t :: s in live && t in live && s < t ==> s + live[s] <= t)
    && (forall j :: 0 <= j < |flags| && flags[j] != 0 ==> exists s: nat :: Within(live, s, j))
  }

  // ------------------------------------------------------------ unique decoding

  lemma StartsAgree(flags: seq<bv8>, live: map<nat, nat>, other: map<nat, nat>, s: nat)
    requires Represents(flags, live) && Represents(flags, other) && s in live
    ensures s in other
  {
    assert Run(flags, s, live[s]) && flags[s] != 0;
    var t: nat :| Within(other, t, s);
    assert Run(flags, t, other[t]);
    if s > 0 { BeforeStart(flags, live, s); }
  }

  // The page before an allocation is free or ends another one.
  lemma BeforeStart(flags: seq<bv8>, live: map<nat, nat>, s: nat)
    requires Represents(flags, live) && s in live && s > 0
    ensures s <= |flags| && (flags[s - 1] == 0 || flags[s - 1] == 3)
  {
    assert Run(flags, s, live[s]);
    if flags[s - 1] != 0 {
      var u: nat :| Within(live, u, s - 1);
      assert Run(flags, u, live[u]);
    }
  }

  lemma LengthsAgree(flags: seq<bv8>, s: nat, m: nat, k: nat)
    requires Run(flags, s, m) && Run(flags, s, k)
    ensures m == k
  {
    assert flags[s + m - 1] == 3 && flags[s + k - 1] == 3;
  }

  // The flags alone say which allocations are live.
  lemma DecodingIsUnique(flags: seq<bv8>, live: map<nat, nat>, other: map<nat, nat>)
    requires Represents(flags, live) && Represents(flags, other)
    ensures live == other
  {
    forall s | s in live || s in other
      ensures s in live && s in other && live[s] == other[s]
    {
      if s in live { StartsAgree(flags, live, other, s); } else { StartsAgree(flags, other, live, s); }
      LengthsAgree(flags, s, live[s], other[s]);
    }
  }

  // -------------------------------------------------------------- the changes

  function Set(flags: seq<bv8>, s: nat, m: nat, f: bv8): (r: seq<bv8>)
    requires s + m <= |flags|
    ensures |r| == |flags|
    ensures forall j :: 0 <= j < |flags| ==> r[j] == if s <= j < s + m then f else flags[j]
  {
    seq(|flags|, j requires 0 <= j < |flags| => if s <= j < s + m then f else flags[j])
  }

  lemma TakeRepresents(flags: seq<bv8>, live: map<nat, nat>, s: nat, m: nat)
    requires Represents(flags, live) && Gap(flags, s, m) && m >= 1
    ensures s !in live
    ensures Represents(Set(flags, s, m, 1)[s + m - 1 := 3], live[s := m])
  {
    var now, more := Set(flags, s, m, 1)[s + m - 1 := 3], live[s := m];
    forall t | t in live
      ensures t + live[t] <= s || s + m <= t
    {
      RunMissesGap(flags, t, live[t], s, m);
    }
    assert s !in live;
    forall t | t in more
      ensures Run(now, t, more[t])
    {
      if t != s { assert Run(flags, t, live[t]); }
    }
    forall j | 0 <= j < |now| && now[j] != 0
      ensures exists t: nat :: Within(more, t, j)
    {
      if s <= j < s + m {
        assert Within(more, s, j);
      } else {
        var t: nat :| Within(live, t, j);
        assert Within(more, t, j);
      }
    }
  }

  lemma RunMissesGap(flags: seq<bv8>, t: nat, k: nat, s: nat, m: nat)
    requires Run(flags, t, k) && Gap(flags, s, m) && m >= 1
    ensures t + k <= s || s + m <= t
  {
    assert flags[t] != 0 && flags[s] == 0;
  }

  lemma ClearRepresents(flags: seq<bv8>, live: map<nat, nat>, s: nat)
    requires Represents(flags, live) && s in live
    ensures s + live[s] <= |flags| && Represents(Set(flags, s, live[s], 0), live - {s})
  {
    assert Run(flags, s, live[s]);
    var now, less := Set(flags, s, live[s], 0), live - {s};
    forall t | t in less
      ensures Run(now, t, less[t])
    {
      assert Run(flags, t, live[t]);
    }
    forall j | 0 <= j < |now| && now[j] != 0
      ensures exists t: nat :: Within(less, t, j)
    {
      var t: nat :| Within(live, t, j);
      assert Within(less, t, j);
    }
  }

  // Freeing what was just taken brings every flag back.
  lemma FreeUndoesTake(flags: seq<bv8>, s: nat, m: nat)
    requires Gap(flags, s, m) && m >= 1
    ensures Set(Set(flags, s, m, 1)[s + m - 1 := 3], s, m, 0) == flags
  {
  }

  // Sizes are 32 bits wide, so size 0 asks for 2^24 pages.
  function PagesFor(size: nat): (n: nat)
    ensures n >= 1
  {
    (size - 1) % 0x1_0000_0000 / 256 + 1
  }

  // The pages hold the bytes asked for, and one page less would not.
  lemma PagesHold(size: nat)
    requires 1 <= size < 0x1_0000_0000
    ensures 256 * (PagesFor(size) - 1) < size <= 256 * PagesFor(size)
  {
  }

  lemma ZeroPages()
    ensures PagesFor(0) == 0x100_0000
  {
  }

  // Byte x of the pool, which starts at address `start`, is in run s.
  predicate InRun(start: nat, live: map<nat, nat>, s: nat, x: nat) {
    s in live && start + 256 * s <= x < start + 256 * (s + live[s])
  }

  // The bytes of a new run are in that run and in no other live one.
  lemma BytesArePrivate(flags: seq<bv8>, live: map<nat, nat>, start: nat, i: nat, size: nat)
    requires Represents(flags, live) && i in live && size <= 256 * live[i]
    ensures forall x, s :: start + 256 * i <= x < start + 256 * i + size && s in live ==> (InRun(start, live, s, x) <==> s == i)
  {
    forall x, s | start + 256 * i <= x < start + 256 * i + size && s in live
      ensures InRun(start, live, s, x) <==> s == i
    {
      if s < i { assert s + live[s] <= i; }
      if i < s { assert i + live[i] <= s; }
    }
  }

  // The bound of malloc's scan is an unsigned difference.
  function LastStart(pages: nat, n: nat): nat { (pages - n) % 0x1_0000_0000 }

  // Every page the scan looks at is in the table exactly if the request is for no
  // more pages than there are; otherwise it runs on past the table.
  lemma ScanStaysInTable(pages: nat, n: nat)
    requires pages < 0x8000_0000 && n < 0x8000_0000
    ensures (forall i: nat :: i <= LastStart(pages, n) ==> InTable(pages, i, n)) <==> n <= pages
  {
    if n > pages {
      assert LastStart(pages, n) == pages - n + 0x1_0000_0000;
      assert !InTable(pages, LastStart(pages, n), n);
    }
  }

  predicate InTable(pages: nat, i: nat, n: nat) { i + n <= pages }

  class Pages {
    const flags: array<bv8>
    const start: nat
    ghost var live: map<nat, nat>

    ghost predicate Valid()
      reads this, flags
    {
      start > 0 && Represents(flags[..], live)
    }

    // heap_init: every page is cleared.
    constructor (pages: nat, heapStart: nat)
      requires heapStart > 0
      ensures Valid() && live == map[] && flags.Length == pages && fresh(flags)
      ensures start % 256 == 0 && heapStart + 2048 * 256 <= start < heapStart + 2048 * 256 + 256
    {
      var table := new bv8[pages];
      for i := 0 to pages
        invariant forall j :: 0 <= j < i ==> table[j] == 0
      {
        table[i] := 0;
      }
      flags := table;
      start := (heapStart + 2048 * 256 + 255) / 256 * 256;
      live := map[];
      new;
      assert Represents(table[..], map[]);
    }

    // Are pages i to i + n - 1 free, given that page i is?
    method GapAt(i: nat, n: nat) returns (found: bool)
      requires Valid() && n >= 1 && i + n <= flags.Length && flags[i] == 0
      ensures found <==> Gap(flags[..], i, n)
    {
      found := true;
      var j := i + 1;
      while j < i + n
        invariant i < j <= i + n
        invariant forall k :: i <= k < j ==> flags[k] == 0
      {
        if !IsFree(flags[j]) {
          return false;
        }
        assert flags[..][j] == 0 by { OnlyThreeFlags(flags[..], live, j); }
        j := j + 1;
      }
    }

    method TakeRun(i: nat, n: nat)
      requires n >= 1 && i + n <= flags.Length && Gap(flags[..], i, n)
      modifies flags
      ensures flags[..] == Set(old(flags[..]), i, n, 1)[i + n - 1 := 3]
    {
      var k := i;
      while k < i + n
        invariant i <= k <= i + n
        invariant forall j :: 0 <= j < flags.Length ==> flags[j] == if i <= j < k then 1 else old(flags[j])
      {
        assert old(flags[..])[k] == 0;
        flags[k] := flags[k] | 1;
        k := k + 1;
      }
      flags[k - 1] := flags[k - 1] | 2;
      assert flags[..] == Set(old(flags[..]), i, n, 1)[i + n - 1 := 3];
    }

    // The lowest gap that is wide enough; 0 if there is none.  ScanStaysInTable
    // says why the request must not be for more pages than there are.
    method Malloc(size: nat) returns (p: nat)
      requires Valid() && PagesFor(size) <= flags.Length
      modifies this`live, flags
      ensures Valid()
      ensures p == 0 ==> live == old(live) && flags[..] == old(flags[..])
      ensures p == 0 ==> forall i :: 0 <= i <= flags.Length - PagesFor(size) ==> !Gap(old(flags[..]), i, PagesFor(size))
      ensures p != 0 ==>
        && p >= start
        && var i: nat := (p - start) / 256;
        && p == start + i * 256 && i !in old(live) && live == old(live)[i := PagesFor(size)]
        && Gap(old(flags[..]), i, PagesFor(size))
        && flags[..] == Set(old(flags[..]), i, PagesFor(size), 1)[i + PagesFor(size) - 1 := 3]
        && (forall j :: 0 <= j < i ==> !Gap(old(flags[..]), j, PagesFor(size)))
      ensures p != 0 && 1 <= size < 0x1_0000_0000 ==>
        forall x, s :: p <= x < p + size && s in live ==> (InRun(start, live, s, x) <==> start + 256 * s == p)
    {
      hide Represents, Set, InRun, PagesFor;
      var n := PagesFor(size);
      for i := 0 to flags.Length - n + 1
        invariant flags[..] == old(flags[..]) && live == old(live)
        invariant forall j :: 0 <= j < i ==> !Gap(flags[..], j, n)
      {
        var found := false;
        OnlyThreeFlags(flags[..], live, i);
        if IsFree(flags[i]) {
          found := GapAt(i, n);
        } else {
          assert flags[..][i] != 0;
        }
        if found {
          TakeRepresents(flags[..], live, i, n);
          TakeRun(i, n);
          live := live[i := n];
          assert (start + i * 256 - start) / 256 == i;
          if 1 <= size < 0x1_0000_0000 {
            PagesHold(size);
            BytesArePrivate(flags[..], live, start, i, size);
          }
          return start + i * 256;
        }
      }
      return 0;
    }

    // The flags of one run, found from its first page alone.
    method Free(p: nat)
      requires Valid() && (p == 0 || p >= start + flags.Length * 256 || (p >= start && (p - start) / 256 in live))
      modifies this`live, flags
      ensures Valid()
      ensures p == 0 || p >= start + flags.Length * 256 ==> live == old(live) && flags[..] == old(flags[..])
      ensures 0 < p < start + flags.Length * 256 ==>
        var i := (p - start) / 256;
        && live == old(live) - {i}
        && Run(old(flags[..]), i, old(live)[i]) && flags[..] == Set(old(flags[..]), i, old(live)[i], 0)
    {
      if p == 0 || p >= start + flags.Length * 256 { return; }
      var i := (p - start) / 256;
      assert Run(flags[..], i, live[i]);
      ClearRepresents(flags[..], live, i);
      ClearRun(i, live[i]);
      live := live - {i};
    }

    // Pages are cleared up to and including the first that is marked LAST.
    method ClearRun(i: nat, ghost m: nat)
      requires Run(flags[..], i, m)
      modifies flags
      ensures flags[..] == Set(old(flags[..]), i, m, 0)
    {
      ghost var was := flags[..];
      var k := i;
      assert was[k] == if k == i + m - 1 then 3 else 1;
      while !IsFree(flags[k])
        invariant i <= k < i + m <= flags.Length
        invariant forall j :: 0 <= j < flags.Length ==> flags[j] == if i <= j < k then 0 else was[j]
        invariant !IsFree(flags[k])
        decreases i + m - k
      {
        assert was[k] == if k == i + m - 1 then 3 else 1;
        if IsLast(flags[k]) {
          flags[k] := 0;
          assert flags[..] == Set(was, i, m, 0);
          return;
        }
        flags[k] := 0;
        k := k + 1;
        assert was[k] == if k == i + m - 1 then 3 else 1;
      }
      assert false;
    }
  }

  lemma GapFits(flags: seq<bv8>, i: nat, n: nat)
    requires Gap(flags, i, n)
    ensures i + n <= |flags|
  {
  }

  // malloc and then free of the result leave everything as it was.
  method MallocThenFree(pages: Pages, size: nat)
    requires pages.Valid() && PagesFor(size) <= pages.flags.Length
    modifies pages, pages.flags
    ensures pages.Valid() && pages.live == old(pages.live) && pages.flags[..] == old(pages.flags[..])
  {
    hide Set, Gap, Represents, Run, PagesFor;
    ghost var was, n := pages.flags[..], PagesFor(size);
    var p := pages.Malloc(size);
    if p != 0 {
      ghost var i: nat := (p - pages.start) / 256;
      GapFits(was, i, n);
      FreeUndoesTake(was, i, n);
      assert pages.live[i] == n;
      pages.Free(p);
      assert pages.live == old(pages.live);
    }
  }

  lemma OnlyThreeFlags(flags: seq<bv8>, live: map<nat, nat>, j: nat)
    requires Represents(flags, live) && j < |flags|
    ensures flags[j] == 0 || flags[j] == 1 || flags[j] == 3
    ensures IsFree(flags[j]) <==> flags[j] == 0
  {
    if flags[j] != 0 {
      var s: nat :| Within(live, s, j);
      assert Run(flags, s, live[s]);
    }
  }
}
