// What each call of the allocator does to the blocks and the ring, in numbers.
module HeapEffects {
  import opened BlockLayout
  import opened HeapWords
  import opened HeapRuns

  // ------------------------------------------------------------------- sizes

  // A block for n bytes is the smallest multiple of 8 that is at least 16 and
  // leaves n bytes between its two tags.
  lemma BytesSizeIsLeast(n: int, start: int)
    requires n > 0
    ensures
      var m := RequestSize(Bytes(n), start);
      && m % 8 == 0 && m >= 16 && m - 8 >= n
      && forall x :: x % 8 == 0 && x >= 16 && x - 8 >= n ==> m <= x
  {
    RoundUpToEight(n);
    var r := RoundUp8(n);
    hide RoundUp8;
    forall x | x % 8 == 0 && x >= 16 && x - 8 >= n
      ensures RequestSize(Bytes(n), start) <= x
    {
      if x < r + 8 { EightsApart(x, r); }
    }
  }

  lemma EightsApart(x: int, r: int)
    requires x % 8 == 0 && r % 8 == 0 && x < r + 8
    ensures x <= r
  {
    assert x == 8 * (x / 8) && r == 8 * (r / 8);
  }

  // The smallest block for n bytes, by what it must satisfy.
  ghost predicate LeastFor(n: int, m: int) {
    m % 8 == 0 && m >= 16 && m - 8 >= n && (m == 16 || m - 16 < n)
  }

  lemma LeastIsRequest(n: int, m: int, start: int)
    requires n > 0 && LeastFor(n, m)
    ensures RequestSize(Bytes(n), start) == m
  {
    BytesSizeIsLeast(n, start);
    var r := RequestSize(Bytes(n), start);
    if r < m { EightsApart(r + 8, m); }
  }

  // ---------------------------------------------------------------- the ring

  lemma DistinctRest(ring: seq<int>, k: nat)
    requires Distinct(ring) && 0 < k < |ring|
    ensures Distinct(ring[1..]) && ring[0] != ring[k]
  {
    var rest := ring[1..];
    assert forall i :: 0 <= i < |rest| ==> rest[i] == ring[i + 1];
  }

  lemma {:induction false} WithoutIs(ring: seq<int>, k: nat)
    requires Distinct(ring) && k < |ring|
    ensures Without(ring, ring[k]) == ring[..k] + ring[k + 1..]
  {
    if k > 0 {
      var rest := ring[1..];
      DistinctRest(ring, k);
      hide Distinct;
      WithoutIs(rest, k - 1);
      assert [ring[0]] + (rest[..k - 1] + rest[k..]) == ring[..k] + ring[k + 1..];
    }
  }

  // x comes before y.
  ghost predicate Before(ring: seq<int>, x: int, y: int) {
    exists i, j :: 0 <= i < j < |ring| && ring[i] == x && ring[j] == y
  }

  lemma WithoutKeepsOrder(ring: seq<int>, h: int, x: int, y: int)
    requires Distinct(ring)
    ensures Before(Without(ring, h), x, y) <==> x != h && y != h && Before(ring, x, y)
  {
    if h in ring {
      var k :| 0 <= k < |ring| && ring[k] == h;
      WithoutIs(ring, k);
      if Before(Without(ring, h), x, y) { StillBefore(ring, k, x, y); }
      if x != h && y != h && Before(ring, x, y) { BeforeWithout(ring, k, x, y); }
    } else {
      NotInRing(ring, h);
      if Before(ring, x, y) { assert x in ring && y in ring; }
    }
  }

  lemma StillBefore(ring: seq<int>, k: nat, x: int, y: int)
    requires Distinct(ring) && k < |ring| && Before(ring[..k] + ring[k + 1..], x, y)
    ensures x != ring[k] && y != ring[k] && Before(ring, x, y)
  {
    var less := ring[..k] + ring[k + 1..];
    var i, j :| 0 <= i < j < |less| && less[i] == x && less[j] == y;
    var i', j' := if i < k then i else i + 1, if j < k then j else j + 1;
    assert ring[i'] == x && ring[j'] == y && i' != k && j' != k;
  }

  lemma BeforeWithout(ring: seq<int>, k: nat, x: int, y: int)
    requires k < |ring| && Before(ring, x, y) && x != ring[k] && y != ring[k]
    ensures Before(ring[..k] + ring[k + 1..], x, y)
  {
    var less := ring[..k] + ring[k + 1..];
    var i, j :| 0 <= i < j < |ring| && ring[i] == x && ring[j] == y;
    assert less[if i < k then i else i - 1] == x && less[if j < k then j else j - 1] == y;
  }

  lemma {:induction false} NotInRing(ring: seq<int>, h: int)
    requires h !in ring
    ensures Without(ring, h) == ring
  {
    if ring != [] { NotInRing(ring[1..], h); }
  }

  lemma {:induction false} WithoutAllKeepsOrder(ring: seq<int>, hs: seq<int>, x: int, y: int)
    requires Distinct(ring)
    ensures Before(WithoutAll(ring, hs), x, y) <==> x !in hs && y !in hs && Before(ring, x, y)
    decreases hs
  {
    if hs != [] {
      WithoutMembers(ring, hs[0]);
      WithoutKeepsOrder(ring, hs[0], x, y);
      WithoutAllKeepsOrder(Without(ring, hs[0]), hs[1..], x, y);
      assert forall z :: z in hs <==> z == hs[0] || z in hs[1..];
    }
  }

  // -------------------------------------------------------------- allocation

  // Free block j is cut: m bytes at its low end go to the client, the rest is a
  // free block at the head of the ring, where block j has left its place k.
  ghost predicate Cut(l: Layout, l': Layout, ask: Ask, m: int, j: nat, k: nat) {
    && j < |l.blocks| && k < |l.ring| && var b := l.blocks[j];
    && b.tenant == Free && b.start == l.ring[k] && b.size >= m + 16
    && l'.blocks == l.blocks[..j] + [Block(b.start, m, Held(ask)), Block(b.start + m, b.size - m, Free)] + l.blocks[j + 1..]
    && l'.ring == [b.start + m] + l.ring[..k] + l.ring[k + 1..]
  }

  lemma SplitIsCut(l: Layout, ask: Ask, j: nat, k: nat)
    requires Distinct(l.ring) && j < |l.blocks| && k < |l.ring| && l.blocks[j].start == l.ring[k] && Fits(l.blocks[j], ask)
    ensures Cut(l, Split(l, j, ask), ask, RequestSize(ask, l.ring[k]), j, k)
  {
    hide RequestSize;
    WithoutIs(l.ring, k);
  }

  // The block and the ring position a served request is cut from.
  lemma ChosenIsCut(l: Layout, ask: Ask)
    requires Distinct(l.ring) && Allocate(l, ask).1 != 0
    ensures
      var k := FirstFit(l.blocks, l.ring, ask, 0);
      k < |l.ring| && var j := IndexOf(l.blocks, l.ring[k]);
      && Cut(l, Allocate(l, ask).0, ask, RequestSize(ask, l.ring[k]), j, k)
      && Allocate(l, ask).1 == Block(l.ring[k], RequestSize(ask, l.ring[k]), Held(ask)).Pointer()
  {
    hide RequestSize, Block.Pointer, Cut;
    var k := FirstFit(l.blocks, l.ring, ask, 0);
    SplitIsCut(l, ask, IndexOf(l.blocks, l.ring[k]), k);
  }

  lemma EarlierIsSmall(l: Layout, lo: int, hi: int, ask: Ask, x: nat, y: nat)
    requires WellFormed(l, lo, hi) && y < |l.ring| && x < |l.blocks| && l.blocks[x].start == l.ring[y]
    requires !FitsAt(l.blocks, l.ring[y], ask)
    ensures l.blocks[x].size < RequestSize(ask, l.blocks[x].start) + 16
  {
    hide RequestSize, AllRoomy, NoFreeNeighbours;
    IndexIsUnique(l.blocks, lo, hi, x);
    assert l.ring[y] in l.ring;
    var i :| 0 <= i < |l.blocks| && l.blocks[i].start == l.ring[y] && Vacant(l.blocks[i]);
    SameHeader(l.blocks, lo, hi, i, x);
  }

  // The block at ring position k is cut for n bytes, and no earlier one could be.
  ghost predicate MallocCuts(l: Layout, l': Layout, n: int, m: int, p: int, j: nat, k: nat) {
    && Cut(l, l', Bytes(n), m, j, k) && p == l.ring[k] + 4
    && forall x, y :: 0 <= x < |l.blocks| && 0 <= y < k && l.blocks[x].start == l.ring[y] ==> l.blocks[x].size < m + 16
  }

  // malloc(n), where m is the smallest block for n bytes: it is refused exactly if
  // no free block has m + 16 bytes; else the first in ring order that has is cut.
  lemma MallocIs(l: Layout, lo: int, hi: int, n: int, m: int)
    requires WellFormed(l, lo, hi) && lo > 0 && n > 0
    requires m % 8 == 0 && m >= 16 && m - 8 >= n && (m == 16 || m - 16 < n)
    ensures
      var (l', p) := Allocate(l, Bytes(n));
      && (p == 0 <==> forall i :: 0 <= i < |l.blocks| && l.blocks[i].tenant == Free ==> l.blocks[i].size < m + 16)
      && (p == 0 ==> l' == l)
      && (p != 0 ==> exists j, k :: MallocCuts(l, l', n, m, p, j, k))
  {
    var ask, k := Bytes(n), FirstFit(l.blocks, l.ring, Bytes(n), 0);
    forall start
      ensures RequestSize(ask, start) == m
    {
      LeastIsRequest(n, m, start);
    }
    FirstFitOrNothing(l, lo, hi, ask);
    var (l', p) := Allocate(l, ask);
    RefusedLeavesAll(l, lo, hi, ask);
    hide RequestSize, Allocate, Cut;
    if p != 0 {
      ChosenIsCut(l, ask);
      forall x, y | 0 <= x < |l.blocks| && 0 <= y < k && l.blocks[x].start == l.ring[y]
        ensures l.blocks[x].size < m + 16
      {
        EarlierIsSmall(l, lo, hi, ask, x, y);
      }
      assert MallocCuts(l, l', n, m, p, IndexOf(l.blocks, l.ring[k]), k);
    }
  }

  lemma RefusedLeavesAll(l: Layout, lo: int, hi: int, ask: Ask)
    requires WellFormed(l, lo, hi) && Legal(ask) && lo > 0
    ensures Allocate(l, ask).1 == 0 ==> Allocate(l, ask).0 == l
  {
    hide RequestSize, Tiled, AllRoomy, NoFreeNeighbours, RingMatches;
    var k := FirstFit(l.blocks, l.ring, ask, 0);
    if k < |l.ring| {
      var i := IndexOf(l.blocks, l.ring[k]);
      SplitKeepsOrder(l, lo, hi, i, ask);
      SplitAt(l, i, ask);
      PointerInside(Split(l, i, ask), lo, hi, i);
    }
  }

  // a is the first 64-byte boundary from the block's payload on.
  ghost predicate Boundary(b: Block, a: int) { a % 64 == 0 && b.start + 4 <= a < b.start + 4 + 64 }

  lemma OneBoundary(p: int, a: int, b: int)
    requires a % 64 == 0 && b % 64 == 0 && p <= a < p + 64 && p <= b < p + 64
    ensures a == b
  {
    assert a == 64 * (a / 64) && b == 64 * (b / 64);
  }

  lemma BoundarySize(b: Block, a: int)
    requires b.start % 8 == 4
    ensures Boundary(b, a) <==> a == AlignedPayload(b.start + 4)
    ensures Boundary(b, a) ==> RequestSize(Descriptor, b.start) == a + 64 + 4 - b.start
  {
    var p := b.start + 4;
    DescriptorSize(p);
    AlignedPayloadGap(p);
    hide AlignedPayload, RequestSize;
    if Boundary(b, a) { OneBoundary(p, a, AlignedPayload(p)); }
  }

  // A block must reach 64 bytes beyond that boundary, a footer, and 16 bytes more.
  ghost predicate TooSmall(b: Block) {
    forall a :: Boundary(b, a) ==> b.size < a + 64 + 4 - b.start + 16
  }

  lemma TooSmallIff(b: Block)
    requires b.start % 8 == 4
    ensures TooSmall(b) <==> b.size < RequestSize(Descriptor, b.start) + 16
  {
    BoundarySize(b, AlignedPayload(b.start + 4));
    forall a
      ensures Boundary(b, a) ==> a == AlignedPayload(b.start + 4)
    {
      BoundarySize(b, a);
    }
  }

  // The block at ring position k is cut for a descriptor, which is placed on the
  // boundary, and no earlier block could be.
  ghost predicate DescriptorCuts(l: Layout, l': Layout, p: int, j: nat, k: nat) {
    && j < |l.blocks| && Boundary(l.blocks[j], p)
    && Cut(l, l', Descriptor, p + 64 + 4 - l.blocks[j].start, j, k)
    && forall x, y :: 0 <= x < |l.blocks| && 0 <= y < k && l.blocks[x].start == l.ring[y] ==> TooSmall(l.blocks[x])
  }

  // malloc_LLI(): refused exactly if every free block is too small; else the first
  // in ring order that is not is cut.
  lemma DescriptorIs(l: Layout, lo: int, hi: int)
    requires WellFormed(l, lo, hi) && lo > 0
    ensures
      var (l', p) := Allocate(l, Descriptor);
      && (p == 0 <==> forall i :: 0 <= i < |l.blocks| && l.blocks[i].tenant == Free ==> TooSmall(l.blocks[i]))
      && (p == 0 ==> l' == l)
      && (p != 0 ==> exists j, k :: DescriptorCuts(l, l', p, j, k))
  {
    FirstFitOrNothing(l, lo, hi, Descriptor);
    RefusedLeavesAll(l, lo, hi, Descriptor);
    forall i | 0 <= i < |l.blocks|
      ensures Fits(l.blocks[i], Descriptor) <==> l.blocks[i].tenant == Free && !TooSmall(l.blocks[i])
    {
      TileAt(l.blocks, lo, hi, i);
      TooSmallIff(l.blocks[i]);
    }
    hide Allocate, TooSmall, RequestSize, Tiled, AllRoomy, NoFreeNeighbours, RingMatches, DescriptorCuts, Fits, FitsAt;
    if Allocate(l, Descriptor).1 != 0 { DescriptorIsCut(l, lo, hi); }
  }

  lemma DescriptorIsCut(l: Layout, lo: int, hi: int)
    requires WellFormed(l, lo, hi) && Allocate(l, Descriptor).1 != 0
    ensures
      var k := FirstFit(l.blocks, l.ring, Descriptor, 0);
      k < |l.ring| && DescriptorCuts(l, Allocate(l, Descriptor).0, Allocate(l, Descriptor).1, IndexOf(l.blocks, l.ring[k]), k)
  {
    ChosenIsCut(l, Descriptor);
    var k := FirstFit(l.blocks, l.ring, Descriptor, 0);
    var j := IndexOf(l.blocks, l.ring[k]);
    assert j < |l.blocks| && l.blocks[j].start == l.ring[k];
    TileAt(l.blocks, lo, hi, j);
    var p := AlignedPayload(l.ring[k] + 4);
    BoundarySize(l.blocks[j], p);
    forall x, y | 0 <= x < |l.blocks| && 0 <= y < k && l.blocks[x].start == l.ring[y]
      ensures TooSmall(l.blocks[x])
    {
      TileAt(l.blocks, lo, hi, x);
      TooSmallIff(l.blocks[x]);
      EarlierIsSmall(l, lo, hi, Descriptor, x, y);
    }
    assert Allocate(l, Descriptor).1 == p;
    hide AlignedPayload, RequestSize, WellFormed, Allocate, Cut, TooSmall, FitsAt;
    assert DescriptorCuts(l, Allocate(l, Descriptor).0, p, j, k);
  }

  // ------------------------------------------------------------------ release

  // free of block i: it and the free blocks right below and right above it become
  // one free block, which is the head of the ring; the other ring members stay,
  // in their order.
  lemma ReleaseIs(l: Layout, lo: int, hi: int, i: nat)
    requires WellFormed(l, lo, hi) && i < |l.blocks| && l.blocks[i].tenant != Free
    ensures
      var below, above := i > 0 && l.blocks[i - 1].tenant == Free, i + 1 < |l.blocks| && l.blocks[i + 1].tenant == Free;
      var first, last := if below then i - 1 else i, if above then i + 1 else i;
      var start, ring := l.blocks[first].start, Release(l, i).ring;
      && Release(l, i).blocks
           == l.blocks[..first] + [Block(start, l.blocks[last].start + l.blocks[last].size - start, Free)] + l.blocks[last + 1..]
      && ring != [] && ring[0] == start && Distinct(ring)
      && (forall r :: r in ring[1..] <==>
            r in l.ring && !(below && r == l.blocks[i - 1].start) && !(above && r == l.blocks[i + 1].start))
      && (forall x, y :: Before(ring[1..], x, y) ==> Before(l.ring, x, y))
  {
    ReleasedBlocks(l, lo, hi, i);
    ReleasedRing(l, lo, hi, i);
  }

  lemma ReleasedBlocks(l: Layout, lo: int, hi: int, i: nat)
    requires WellFormed(l, lo, hi) && i < |l.blocks| && l.blocks[i].tenant != Free
    ensures
      var below, above := i > 0 && l.blocks[i - 1].tenant == Free, i + 1 < |l.blocks| && l.blocks[i + 1].tenant == Free;
      var first, last := if below then i - 1 else i, if above then i + 1 else i;
      var start := l.blocks[first].start;
      && Release(l, i).blocks
           == l.blocks[..first] + [Block(start, l.blocks[last].start + l.blocks[last].size - start, Free)] + l.blocks[last + 1..]
  {
    hide WellFormed, WithoutAll;
  }

  lemma ReleasedRing(l: Layout, lo: int, hi: int, i: nat)
    requires WellFormed(l, lo, hi) && i < |l.blocks| && l.blocks[i].tenant != Free
    ensures
      var below, above := i > 0 && l.blocks[i - 1].tenant == Free, i + 1 < |l.blocks| && l.blocks[i + 1].tenant == Free;
      var ring := Release(l, i).ring;
      && ring != [] && ring[0] == l.blocks[if below then i - 1 else i].start && Distinct(ring)
      && (forall r :: r in ring[1..] <==>
            r in l.ring && !(below && r == l.blocks[i - 1].start) && !(above && r == l.blocks[i + 1].start))
      && (forall x, y :: Before(ring[1..], x, y) ==> Before(l.ring, x, y))
  {
    ReleaseKeepsRing(l, lo, hi, i);
    var gone := Absorbed(l.blocks, i);
    var kept := WithoutAll(l.ring, gone);
    assert Release(l, i).ring == [Merged(l.blocks, i).start] + kept;
    hide Tiled, AllRoomy, NoFreeNeighbours, WithoutAll, Before, Release;
    WithoutAllMembers(l.ring, gone);
    forall x, y | Before(kept, x, y)
      ensures Before(l.ring, x, y)
    {
      WithoutAllKeepsOrder(l.ring, gone, x, y);
    }
    assert Release(l, i).ring[1..] == kept;
  }
}
