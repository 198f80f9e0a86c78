// Whole runs of the allocator: every interleaving of malloc, malloc_LLI, free,
// free_LLI and client stores, from heap_init on.
module HeapRuns {
  import opened BoundaryTag
  import opened BlockLayout
  import opened HeapWords

  datatype Op =
    | Alloc(ask: Ask)
    | FreeOp(ptr: int)
    | FreeLliOp(ptr: int)
    | Write(addr: int, value: int)

  datatype Snapshot = Snapshot(words: Words, layout: Layout)

  // A client stores only through a pointer it holds, up to the footer of its
  // block.  That may be more than it asked for: the scheduler asks for four
  // bytes and uses eight, which the rounding to eight allows.
  ghost predicate MayWrite(l: Layout, a: int) {
    exists i :: 0 <= i < |l.blocks| && InHeld(l.blocks[i], a)
  }

  predicate InHeld(b: Block, a: int) { !Vacant(b) && b.Pointer() <= a < b.End() - 4 }

  // What the program demands of its callers.
  ghost predicate Enabled(l: Layout, op: Op) {
    match op
    case Alloc(ask) => Legal(ask)
    case FreeOp(p) => p == 0 || HeldPayload(l, p)
    case FreeLliOp(p) => HeldPointer(l, p)
    case Write(a, v) => MayWrite(l, a)
  }

  function Apply(l: Layout, op: Op): Layout
    requires op.FreeOp? && op.ptr != 0 ==> IndexOf(l.blocks, op.ptr - 4) < |l.blocks|
    requires op.FreeLliOp? ==> PointerIndex(l.blocks, op.ptr) < |l.blocks|
  {
    match op
    case Alloc(ask) => Allocate(l, ask).0
    case FreeOp(p) => if p == 0 then l else Release(l, IndexOf(l.blocks, p - 4))
    case FreeLliOp(p) => Release(l, PointerIndex(l.blocks, p))
    case Write(_, _) => l
  }

  // One step: what the allocator's methods ensure, or one store by a client.
  ghost predicate Step(s: Snapshot, op: Op, t: Snapshot, lo: int, hi: int) {
    && Enabled(s.layout, op)
    && t.layout == Apply(s.layout, op)
    && (if op.Write? then t.words == s.words[op.addr := op.value]
        else Represents(t.words, t.layout, lo, hi) && KeepsPayloads(s.words, t.words, Lasting(s.layout, op)))
  }

  // The blocks whose payloads an allocator call must leave alone.
  function Lasting(l: Layout, op: Op): seq<Block>
    requires Enabled(l, op) && !op.Write?
  {
    if op.Alloc? then l.blocks else Apply(l, op).blocks
  }

  // A run from heap_init on: the layout after each operation, and memory.
  ghost predicate Run(ss: seq<Snapshot>, ops: seq<Op>, lo: int, hi: int) {
    && |ss| == |ops| + 1
    && ss[0].layout == Initial(lo, hi) && Represents(ss[0].words, ss[0].layout, lo, hi)
    && (forall k :: 0 <= k < |ops| ==> Step(ss[k], ops[k], ss[k + 1], lo, hi))
  }

  // A heap as heap_init lays it out.
  ghost predicate HeapBounds(lo: int, hi: int) {
    lo > 0 && lo % 8 == 4 && (hi - lo) % 8 == 0 && hi - lo >= MIN_BLOCKSIZE
  }

  // ------------------------------------------------------------- every state

  lemma StepKeepsOrder(s: Snapshot, op: Op, t: Snapshot, lo: int, hi: int)
    requires WellFormed(s.layout, lo, hi) && Step(s, op, t, lo, hi)
    ensures WellFormed(t.layout, lo, hi)
  {
    hide WellFormed, Allocate, Release, MayWrite;
    match op
    case Alloc(ask) => AllocateKeepsOrder(s.layout, lo, hi, ask);
    case FreeOp(p) => if p != 0 { ReleaseKeepsOrder(s.layout, lo, hi, IndexOf(s.layout.blocks, p - 4)); }
    case FreeLliOp(p) => ReleaseKeepsOrder(s.layout, lo, hi, PointerIndex(s.layout.blocks, p));
    case Write(_, _) =>
  }

  // In every state of every run the blocks tile the heap, no two free blocks
  // touch, the topmost block is free, and the ring is exactly the free blocks.
  lemma {:induction false} RunKeepsOrder(ss: seq<Snapshot>, ops: seq<Op>, lo: int, hi: int, k: nat)
    requires Run(ss, ops, lo, hi) && HeapBounds(lo, hi) && k < |ss|
    ensures WellFormed(ss[k].layout, lo, hi) && |ss[k].layout.ring| >= 1
  {
    hide WellFormed, Step;
    if k == 0 {
      InitialInOrder(lo, hi);
    } else {
      RunKeepsOrder(ss, ops, lo, hi, k - 1);
      StepKeepsOrder(ss[k - 1], ops[k - 1], ss[k - 1 + 1], lo, hi);
    }
    RingNotEmpty(ss[k].layout, lo, hi);
  }

  lemma RingNotEmpty(l: Layout, lo: int, hi: int)
    requires WellFormed(l, lo, hi)
    ensures |l.ring| >= 1
  {
    assert FreeHeader(l.blocks, l.blocks[|l.blocks| - 1].start);
  }

  // Full coalescing: with nothing held, the heap is as heap_init left it.
  lemma FullCoalescing(ss: seq<Snapshot>, ops: seq<Op>, lo: int, hi: int, k: nat)
    requires Run(ss, ops, lo, hi) && HeapBounds(lo, hi) && k < |ss|
    requires forall i :: 0 <= i < |ss[k].layout.blocks| ==> Vacant(ss[k].layout.blocks[i])
    ensures ss[k].layout == Initial(lo, hi)
  {
    RunKeepsOrder(ss, ops, lo, hi, k);
    NothingHeld(ss[k].layout, lo, hi);
  }

  lemma NothingHeld(l: Layout, lo: int, hi: int)
    requires WellFormed(l, lo, hi)
    requires forall i :: 0 <= i < |l.blocks| ==> Vacant(l.blocks[i])
    ensures l == Initial(lo, hi)
  {
    if |l.blocks| >= 2 { FirstTwo(l.blocks); }
    assert l.blocks == [Block(lo, hi - lo, Free)];
    assert FreeHeader(l.blocks, lo);
    forall r | r in l.ring
      ensures r == lo
    {
      assert FreeHeader(l.blocks, r);
    }
    OnlyOne(l.ring, lo);
  }

  lemma FirstTwo(blocks: seq<Block>)
    requires NoFreeNeighbours(blocks) && |blocks| >= 2
    ensures !Vacant(blocks[0]) || !Vacant(blocks[1])
  {
    var b := blocks[0 + 1];
  }

  lemma OnlyOne(ring: seq<int>, x: int)
    requires Distinct(ring) && x in ring && forall r :: r in ring ==> r == x
    ensures ring == [x]
  {
    DistinctCount(ring);
    assert (set r | r in ring) == {x};
  }

  // ------------------------------------------------------------- round trips

  // Giving back what was just allocated restores every block exactly; the ring
  // is the old ring with the chosen block moved to the front.
  lemma AllocateThenRelease(l: Layout, lo: int, hi: int, ask: Ask)
    requires WellFormed(l, lo, hi) && Legal(ask) && lo > 0 && Allocate(l, ask).1 != 0
    ensures
      var chosen := l.ring[FirstFit(l.blocks, l.ring, ask, 0)];
      var (l1, p) := Allocate(l, ask);
      var i := PointerIndex(l1.blocks, p);
      && HeldPointer(l1, p) && l1.blocks[i].start == chosen && l1.blocks[i].tenant == Held(ask)
      && (ask.Bytes? ==> HeldPayload(l1, p) && IndexOf(l1.blocks, p - 4) == i)
      && Release(l1, i) == Layout(l.blocks, [chosen] + Without(l.ring, chosen))
  {
    hide Allocate, FirstFit, FitsAt, IndexOf, PointerIndex, RequestSize, Tiled, AllRoomy, RingMatches, NoFreeNeighbours;
    hide Fits, Split, Release, Without, Block.Pointer;
    ChosenBlock(l, ask);
    var chosen := l.ring[FirstFit(l.blocks, l.ring, ask, 0)];
    var j := IndexOf(l.blocks, chosen);
    var (l1, p) := Allocate(l, ask);
    SplitKeepsOrder(l, lo, hi, j, ask);
    SplitAt(l, j, ask);
    PointerIsUnique(l1, lo, hi, j);
    IndexIsUnique(l1.blocks, lo, hi, j);
    PlainPointer(l1.blocks[j]);
    ReleaseUndoesSplit(l, lo, hi, j, ask);
  }

  // The block a successful request is cut from.
  lemma ChosenBlock(l: Layout, ask: Ask)
    requires Allocate(l, ask).1 != 0
    ensures
      var k := FirstFit(l.blocks, l.ring, ask, 0);
      k < |l.ring| && var j := IndexOf(l.blocks, l.ring[k]);
      && j < |l.blocks| && l.blocks[j].start == l.ring[k] && Fits(l.blocks[j], ask)
      && Allocate(l, ask) == (Split(l, j, ask), SplitPieces(l.blocks[j], ask)[0].Pointer())
  {
  }

  lemma PlainPointer(b: Block)
    ensures b.tenant.Held? && b.tenant.ask.Bytes? ==> b.Pointer() == b.start + 4
  {
  }

  // A held pointer names one block.
  lemma PointerIsUnique(l: Layout, lo: int, hi: int, i: nat)
    requires WellFormed(l, lo, hi) && i < |l.blocks| && !Vacant(l.blocks[i])
    ensures PointerIndex(l.blocks, l.blocks[i].Pointer()) == i && l.blocks[i].Pointer() > lo
  {
    var p := l.blocks[i].Pointer();
    var k := PointerIndex(l.blocks, p);
    PointerInside(l, lo, hi, i);
    PointerInside(l, lo, hi, k);
  }

  lemma PointerInside(l: Layout, lo: int, hi: int, i: nat)
    requires WellFormed(l, lo, hi) && i < |l.blocks| && !Vacant(l.blocks[i])
    ensures
      var b := l.blocks[i];
      b.Pointer() % 8 == 0 && lo <= b.start && b.start < b.Pointer() && b.Pointer() + 4 <= b.End()
  {
    hide Block.Pointer;
    TileAt(l.blocks, lo, hi, i);
    assert l.blocks[i].Roomy();
    HeldBlockPointer(l.blocks[i]);
  }

  lemma ReleaseUndoesSplit(l: Layout, lo: int, hi: int, j: nat, ask: Ask)
    requires WellFormed(l, lo, hi) && Legal(ask) && j < |l.blocks| && Fits(l.blocks[j], ask)
    ensures
      var start := l.blocks[j].start;
      Release(Split(l, j, ask), j) == Layout(l.blocks, [start] + Without(l.ring, start))
  {
    hide RequestSize, AllRoomy, Tiled;
    var l1, b, pieces := Split(l, j, ask), l.blocks[j], SplitPieces(l.blocks[j], ask);
    SpliceIndex(l.blocks, j, j + 1, pieces);
    BelowFreeIsHeld(l.blocks, j);
    assert MergeFrom(l1.blocks, j) == j && MergeTo(l1.blocks, j) == j + 2;
    assert Merged(l1.blocks, j) == b by { assert b.tenant == Free; }
    SpliceIndex(l1.blocks, j, j + 2, [b]);
    assert Release(l1, j).blocks == l.blocks;
    var kept := Without(l.ring, b.start);
    assert Absorbed(l1.blocks, j) == [pieces[1].start];
    assert WithoutAll(l1.ring, [pieces[1].start]) == WithoutAll(Without(l1.ring, pieces[1].start), [pieces[1].start][1..]);
    assert l1.ring[1..] == kept;
  }

  lemma BelowFreeIsHeld(blocks: seq<Block>, j: nat)
    requires NoFreeNeighbours(blocks) && j < |blocks| && Vacant(blocks[j])
    ensures j > 0 ==> !Vacant(blocks[j - 1])
  {
    if j > 0 {
      var a, b := blocks[j - 1], blocks[j - 1 + 1];
      assert b == blocks[j];
    }
  }

  // ---------------------------------------------------------------- capacity

  // A request is refused exactly when no free block can be cut for it, and the
  // block it gets is the first in ring order that can.
  lemma FirstFitOrNothing(l: Layout, lo: int, hi: int, ask: Ask)
    requires WellFormed(l, lo, hi) && Legal(ask) && lo > 0
    ensures Allocate(l, ask).1 == 0 <==> forall i :: 0 <= i < |l.blocks| ==> !Fits(l.blocks[i], ask)
    ensures Allocate(l, ask).1 != 0 ==> exists k ::
      && 0 <= k < |l.ring| && FitsAt(l.blocks, l.ring[k], ask)
      && (forall m :: 0 <= m < k ==> !FitsAt(l.blocks, l.ring[m], ask))
      && Allocate(l, ask).1 == Block(l.ring[k], RequestSize(ask, l.ring[k]), Held(ask)).Pointer()
  {
    hide RequestSize;
    var k := FirstFit(l.blocks, l.ring, ask, 0);
    forall i | 0 <= i < |l.blocks| && Fits(l.blocks[i], ask)
      ensures k < |l.ring|
    {
      assert FreeHeader(l.blocks, l.blocks[i].start);
      IndexIsUnique(l.blocks, lo, hi, i);
      var m :| 0 <= m < |l.ring| && l.ring[m] == l.blocks[i].start;
      assert FitsAt(l.blocks, l.ring[m], ask);
    }
    if k < |l.ring| {
      var i := IndexOf(l.blocks, l.ring[k]);
      SplitKeepsOrder(l, lo, hi, i, ask);
      SplitAt(l, i, ask);
      PointerInside(Split(l, i, ask), lo, hi, i);
    }
  }

  function FreeBytes(blocks: seq<Block>): int {
    if blocks == [] then 0
    else FreeBytes(blocks[..|blocks| - 1]) + (if Vacant(blocks[|blocks| - 1]) then blocks[|blocks| - 1].size else 0)
  }

  function HeldCount(blocks: seq<Block>): nat {
    if blocks == [] then 0
    else HeldCount(blocks[..|blocks| - 1]) + (if Vacant(blocks[|blocks| - 1]) then 0 else 1)
  }

  // Free blocks are separated by held ones, so few held blocks and no large
  // free block leave little free memory.
  lemma {:induction false} SmallBlocksAddUp(blocks: seq<Block>, bound: int)
    requires NoFreeNeighbours(blocks) && bound > 0
    requires forall i :: 0 <= i < |blocks| && Vacant(blocks[i]) ==> blocks[i].size < bound
    ensures FreeBytes(blocks) <= HeldCount(blocks) * bound + (if blocks != [] && Vacant(blocks[|blocks| - 1]) then bound - 1 else 0)
  {
    if blocks != [] {
      var n := |blocks|;
      var init := blocks[..n - 1];
      SmallBlocksAddUp(init, bound);
      if Vacant(blocks[n - 1]) {
        BelowFreeIsHeld(blocks, n - 1);
      } else {
        assert HeldCount(blocks) * bound == HeldCount(init) * bound + bound;
      }
    }
  }

  // No request needs a free block larger than this: for n bytes, n rounded up to a
  // multiple of 8 plus 8, never below 16, and 16 more; 144 for a descriptor.
  ghost predicate Ample(ask: Ask, w: int) {
    match ask
    case Bytes(n) => w % 8 == 0 && w >= n + 8 + 16 && w >= 16 + 16
    case Descriptor => w >= 144
  }

  lemma AmpleFits(ask: Ask, b: Block, w: int)
    requires Legal(ask) && Vacant(b) && b.Cut() && Ample(ask, w) && b.size >= w
    ensures Fits(b, ask)
  {
    match ask
    case Bytes(n) =>
      RoundUpToEight(n);
      var r := RoundUp8(n);
      assert r == 8 * (r / 8) && w == 8 * (w / 8);
    case Descriptor => DescriptorSize(b.start + 4);
  }

  // A request succeeds whenever the free bytes reach (held blocks + 1) times that.
  lemma EnoughFreeMemorySuffices(l: Layout, lo: int, hi: int, ask: Ask, w: int)
    requires WellFormed(l, lo, hi) && Legal(ask) && lo > 0
    requires ask.Bytes? ==> w % 8 == 0 && w >= ask.n + 24 && w >= 32
    requires ask.Descriptor? ==> w >= 144
    requires FreeBytes(l.blocks) >= (HeldCount(l.blocks) + 1) * w
    ensures Allocate(l, ask).1 != 0
  {
    hide Allocate, RequestSize, FreeBytes, HeldCount, Fits, RingMatches, AllRoomy, Tiled, NoFreeNeighbours;
    assert w > 0 && Ample(ask, w);
    assert (HeldCount(l.blocks) + 1) * w == HeldCount(l.blocks) * w + w;
    if forall i :: 0 <= i < |l.blocks| && Vacant(l.blocks[i]) ==> l.blocks[i].size < w {
      SmallBlocksAddUp(l.blocks, w);
    } else {
      var i :| 0 <= i < |l.blocks| && Vacant(l.blocks[i]) && l.blocks[i].size >= w;
      TileAt(l.blocks, lo, hi, i);
      AmpleFits(ask, l.blocks[i], w);
      FirstFitOrNothing(l, lo, hi, ask);
    }
  }

  // ---------------------------------------------------------------- isolation

  // What a client holds is aligned, at least as large as it asked for, and shares
  // no byte with another client, a tag, a link word or free memory.
  lemma HeldMemoryIsPrivate(l: Layout, lo: int, hi: int, i: nat, x: int)
    requires WellFormed(l, lo, hi) && i < |l.blocks| && InHeld(l.blocks[i], x)
    ensures
      var b := l.blocks[i];
      && b.Pointer() % 8 == 0 && (b.tenant == Held(Descriptor) ==> b.Pointer() % 64 == 0)
      && b.Pointer() + b.Extent() <= b.End() - 4 && b.start + 4 <= x < b.End() - 4
    ensures forall k :: 0 <= k < |l.blocks| && k != i ==> !(l.blocks[k].start <= x < l.blocks[k].End())
    ensures forall k :: 0 <= k < |l.blocks| && k != i ==> !InHeld(l.blocks[k], x)
    ensures forall r :: r in l.ring ==> !(r <= x < r + MIN_BLOCKSIZE)
  {
    hide WellFormed, Block.Pointer, InHeld, Block.Roomy;
    HeldIsAligned(l, lo, hi, i, x);
    forall k | 0 <= k < |l.blocks| && k != i
      ensures !(l.blocks[k].start <= x < l.blocks[k].End()) && !InHeld(l.blocks[k], x)
    {
      HeldIsApart(l, lo, hi, i, k, x);
    }
    forall r | r in l.ring
      ensures !(r <= x < r + MIN_BLOCKSIZE)
    {
      HeldIsOffRing(l, lo, hi, i, r, x);
    }
  }

  lemma HeldIsAligned(l: Layout, lo: int, hi: int, i: nat, x: int)
    requires WellFormed(l, lo, hi) && i < |l.blocks| && InHeld(l.blocks[i], x)
    ensures
      var b := l.blocks[i];
      && b.Pointer() % 8 == 0 && (b.tenant == Held(Descriptor) ==> b.Pointer() % 64 == 0)
      && b.Pointer() + b.Extent() <= b.End() - 4 && b.start + 4 <= x < b.End() - 4
  {
    HeldWithin(l, lo, hi, i, x);
    TileAt(l.blocks, lo, hi, i);
    assert l.blocks[i].Roomy();
    hide WellFormed;
    HeldPlace(l.blocks[i], x);
  }

  lemma HeldPlace(b: Block, x: int)
    requires b.Roomy() && b.Cut() && InHeld(b, x) && b.Pointer() % 8 == 0
    ensures b.tenant == Held(Descriptor) ==> b.Pointer() % 64 == 0
    ensures b.Pointer() + b.Extent() <= b.End() - 4 && b.start + 4 <= x < b.End() - 4
  {
    hide AlignedPayload;
    AlignedPayloadGap(b.Payload());
  }

  lemma HeldIsApart(l: Layout, lo: int, hi: int, i: nat, k: nat, x: int)
    requires WellFormed(l, lo, hi) && i < |l.blocks| && InHeld(l.blocks[i], x) && k < |l.blocks| && k != i
    ensures !(l.blocks[k].start <= x < l.blocks[k].End()) && !InHeld(l.blocks[k], x)
  {
    HeldWithin(l, lo, hi, i, x);
    if InHeld(l.blocks[k], x) { HeldWithin(l, lo, hi, k, x); }
    if i < k { TilesApart(l.blocks, lo, hi, i, k); } else { TilesApart(l.blocks, lo, hi, k, i); }
  }

  lemma HeldIsOffRing(l: Layout, lo: int, hi: int, i: nat, r: int, x: int)
    requires WellFormed(l, lo, hi) && i < |l.blocks| && InHeld(l.blocks[i], x) && r in l.ring
    ensures !(r <= x < r + MIN_BLOCKSIZE)
  {
    var k :| 0 <= k < |l.blocks| && l.blocks[k].start == r && Vacant(l.blocks[k]);
    TileAt(l.blocks, lo, hi, k);
    HeldIsApart(l, lo, hi, i, k, x);
  }

  lemma HeldWithin(l: Layout, lo: int, hi: int, i: nat, x: int)
    requires WellFormed(l, lo, hi) && i < |l.blocks| && InHeld(l.blocks[i], x)
    ensures InPayload(l.blocks[i], x) && l.blocks[i].Pointer() % 8 == 0
  {
    PointerInside(l, lo, hi, i);
    assert l.blocks[i].Roomy();
  }

  // A client's store disturbs neither tags, links nor any back-pointer.
  lemma ClientWriteKeepsHeap(w: Words, l: Layout, lo: int, hi: int, a: int, v: int)
    requires WellFormed(l, lo, hi) && Represents(w, l, lo, hi) && MayWrite(l, a)
    ensures Represents(w[a := v], l, lo, hi)
  {
    var i :| 0 <= i < |l.blocks| && InHeld(l.blocks[i], a);
    HeldWithin(l, lo, hi, i, a);
    var u := w[a := v];
    forall k | 0 <= k < |l.blocks|
      ensures Tagged(u, l.blocks[k]) && BackPointer(u, l.blocks[k])
    {
      WriteMissesBlock(w, l, lo, hi, i, k, a, v);
    }
    assert Sentinels(u, lo, hi) by { TileAt(l.blocks, lo, hi, i); }
    hide Represents, Tiled, AllRoomy, RingMatches, NoFreeNeighbours, Tagged, BackPointer, Sentinels;
    PayloadWriteKeepsLinks(w, l, lo, hi, i, a, v);
  }

  lemma WriteMissesBlock(w: Words, l: Layout, lo: int, hi: int, i: nat, k: nat, a: int, v: int)
    requires WellFormed(l, lo, hi) && Represents(w, l, lo, hi)
    requires i < |l.blocks| && k < |l.blocks| && InHeld(l.blocks[i], a) && InPayload(l.blocks[i], a)
    ensures Tagged(w[a := v], l.blocks[k]) && BackPointer(w[a := v], l.blocks[k])
  {
    hide AlignedPayload, Sentinels, Linked, RingMatches, NoFreeNeighbours, SizeOf, UsedBit;
    var b := l.blocks[k];
    assert Tagged(w, b) && BackPointer(w, b) && b.Roomy();
    TileAt(l.blocks, lo, hi, k);
    if k < i { assert b.End() <= l.blocks[i].start; }
    if i < k { assert l.blocks[i].End() <= b.start; }
    if b.Pointer() != b.Payload() { PointerInPayload(b); }
  }

  // Memory represents the layout in every state of every run.
  lemma {:induction false} RunRepresents(ss: seq<Snapshot>, ops: seq<Op>, lo: int, hi: int, k: nat)
    requires Run(ss, ops, lo, hi) && HeapBounds(lo, hi) && k < |ss|
    ensures Represents(ss[k].words, ss[k].layout, lo, hi)
  {
    if k > 0 {
      hide Represents, WellFormed, Step;
      RunRepresents(ss, ops, lo, hi, k - 1);
      RunKeepsOrder(ss, ops, lo, hi, k - 1);
      StepRepresents(ss[k - 1], ops[k - 1], ss[k - 1 + 1], lo, hi);
    }
  }

  lemma StepRepresents(s: Snapshot, op: Op, t: Snapshot, lo: int, hi: int)
    requires WellFormed(s.layout, lo, hi) && Represents(s.words, s.layout, lo, hi) && Step(s, op, t, lo, hi)
    ensures Represents(t.words, t.layout, lo, hi)
  {
    hide Represents, WellFormed, MayWrite;
    if op.Write? { ClientWriteKeepsHeap(s.words, s.layout, lo, hi, op.addr, op.value); }
  }

  // Whatever happened since it was handed out, the word below a held pointer
  // tells free_LLI the true payload of its block.
  lemma PayloadIsRecovered(ss: seq<Snapshot>, ops: seq<Op>, lo: int, hi: int, k: nat, p: int)
    requires Run(ss, ops, lo, hi) && HeapBounds(lo, hi) && k < |ss| && HeldPointer(ss[k].layout, p)
    ensures
      var w, b := ss[k].words, ss[k].layout.blocks[PointerIndex(ss[k].layout.blocks, p)];
      && p - 4 in w
      && b.Payload() == (if UsedBit(w[p - 4]) == 1 then p else w[p - 4])
  {
    RunRepresents(ss, ops, lo, hi, k);
    RunKeepsOrder(ss, ops, lo, hi, k);
    PointerWord(ss[k].words, ss[k].layout, lo, hi, p);
  }

  ghost predicate Frees(op: Op, b: Block) {
    (op.FreeOp? && op.ptr == b.Payload()) || (op.FreeLliOp? && op.ptr == b.Pointer())
  }

  // A held block stays where it is until it is given back.
  lemma HeldBlockStays(l: Layout, op: Op, lo: int, hi: int, k: nat)
    requires WellFormed(l, lo, hi) && Enabled(l, op) && k < |l.blocks| && !Vacant(l.blocks[k]) && !Frees(op, l.blocks[k])
    ensures l.blocks[k] in Apply(l, op).blocks
  {
    match op
    case Write(_, _) =>
    case Alloc(ask) =>
      hide WellFormed;
      AllocationLeaves(l, ask, k);
    case FreeOp(p) =>
      hide WellFormed, Release, Block.Pointer;
      if p != 0 { OthersStay(l, IndexOf(l.blocks, p - 4), k); }
    case FreeLliOp(p) =>
      hide WellFormed, Release, Block.Pointer;
      OthersStay(l, PointerIndex(l.blocks, p), k);
  }

  lemma AllocationLeaves(l: Layout, ask: Ask, k: nat)
    requires k < |l.blocks| && !Vacant(l.blocks[k])
    ensures l.blocks[k] in Allocate(l, ask).0.blocks
  {
    hide RequestSize;
    var m := FirstFit(l.blocks, l.ring, ask, 0);
    if m < |l.ring| {
      var i := IndexOf(l.blocks, l.ring[m]);
      SpliceIndex(l.blocks, i, i + 1, SplitPieces(l.blocks[i], ask));
      assert Split(l, i, ask).blocks[if k < i then k else k + 1] == l.blocks[k];
    }
  }

  lemma OthersStay(l: Layout, i: nat, k: nat)
    requires i < |l.blocks| && k < |l.blocks| && k != i && !Vacant(l.blocks[k])
    ensures l.blocks[k] in Release(l, i).blocks
  {
    hide Merged, WithoutAll, Absorbed;
    var from, past := MergeFrom(l.blocks, i), MergeTo(l.blocks, i);
    SpliceIndex(l.blocks, from, past, [Merged(l.blocks, i)]);
    assert Release(l, i).blocks[if k < from then k else k - past + from + 1] == l.blocks[k];
  }

  // Until it is given back, a held block stays in place and every word of its
  // payload keeps the value its owner last stored there, whatever the other
  // clients allocate, release and write.
  lemma {:induction false} PayloadSurvives(
    ss: seq<Snapshot>, ops: seq<Op>, lo: int, hi: int, i: nat, j: nat, b: Block, a: int)
    requires Run(ss, ops, lo, hi) && HeapBounds(lo, hi) && i <= j < |ss|
    requires b in ss[i].layout.blocks && !Vacant(b) && InPayload(b, a) && a in ss[i].words
    requires forall k :: i <= k < j ==> !Frees(ops[k], b) && !(ops[k].Write? && ops[k].addr == a)
    ensures b in ss[j].layout.blocks && a in ss[j].words && ss[j].words[a] == ss[i].words[a]
  {
    if i < j {
      hide Step, WellFormed, Frees, InPayload;
      PayloadSurvives(ss, ops, lo, hi, i, j - 1, b, a);
      RunKeepsOrder(ss, ops, lo, hi, j - 1);
      PayloadSurvivesStep(ss[j - 1], ops[j - 1], ss[j - 1 + 1], lo, hi, b, a);
    }
  }

  lemma PayloadSurvivesStep(s: Snapshot, op: Op, t: Snapshot, lo: int, hi: int, b: Block, a: int)
    requires WellFormed(s.layout, lo, hi) && Step(s, op, t, lo, hi)
    requires b in s.layout.blocks && !Vacant(b) && InPayload(b, a) && a in s.words
    requires !Frees(op, b) && !(op.Write? && op.addr == a)
    ensures b in t.layout.blocks && a in t.words && t.words[a] == s.words[a]
  {
    hide Represents, WellFormed, MayWrite, Frees, InPayload, Apply, HeldPayload, HeldPointer;
    var k :| 0 <= k < |s.layout.blocks| && s.layout.blocks[k] == b;
    HeldBlockStays(s.layout, op, lo, hi, k);
    if !op.Write? {
      var last := Lasting(s.layout, op);
      var m :| 0 <= m < |last| && last[m] == b;
    }
  }

  // The forward walk through headers and the backward walk through footers
  // visit the same blocks: each undoes the other.
  lemma WalksAgree(w: Words, l: Layout, lo: int, hi: int, i: nat)
    requires WellFormed(l, lo, hi) && Represents(w, l, lo, hi) && i < |l.blocks|
    ensures
      var h := l.blocks[i].start;
      && h in w && h + SizeOf(w[h]) == (if i + 1 < |l.blocks| then l.blocks[i + 1].start else hi)
      && var next := h + SizeOf(w[h]);
      next - 4 in w && next - SizeOf(w[next - 4]) == h
  {
    assert Tagged(w, l.blocks[i]);
    if i + 1 < |l.blocks| { assert l.blocks[i].End() == l.blocks[i + 1].start; }
  }
}
