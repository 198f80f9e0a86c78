// The allocator's state as the client sees it: the blocks in address order
// and the free ring from its head.  Sizes and addresses are in bytes.
module BlockLayout {
  const MIN_BLOCKSIZE := 16
  const BOUNDARY_SIZE := 8
  const LLI_SIZE := 64

  // What a client asked for: malloc(n), or one 64-byte aligned descriptor.
  datatype Ask = Bytes(n: int) | Descriptor

  datatype Tenant = Free | Held(ask: Ask)

  datatype Block = Block(start: int, size: int, tenant: Tenant) {
    function End(): int { start + size }

    function Payload(): int { start + 4 }

    // The pointer handed to the client.
    function Pointer(): int {
      if tenant == Held(Descriptor) then AlignedPayload(Payload()) else Payload()
    }

    // The bytes the client may use, from its pointer on.
    function Extent(): int {
      match tenant
      case Free => 0
      case Held(Bytes(n)) => n
      case Held(Descriptor) => LLI_SIZE
    }

    // Sizes are multiples of 8 and headers sit 4 bytes before an 8-byte boundary.
    ghost predicate Cut() { size % 8 == 0 && start % 8 == 4 }

    // Room between the tags for a payload and for what the client was promised.
    ghost predicate Roomy() {
      && (tenant.Held? && tenant.ask.Bytes? ==> tenant.ask.n > 0)
      && Pointer() + Extent() <= End() - 4
    }
  }

  datatype Layout = Layout(blocks: seq<Block>, ring: seq<int>)

  // `payload` itself when 64-byte aligned, else the next 64-byte boundary.
  function AlignedPayload(payload: int): int {
    if payload % 64 == 0 then payload else payload + 64 - payload % 64
  }

  function AlignUp(x: int, n: int): int
    requires n > 0
  {
    n * ((x + n - 1) / n)
  }

  function AlignDown(x: int, n: int): int
    requires n > 0
  {
    n * (x / n)
  }

  function RoundUp8(n: int): int { 8 * ((n + 7) / 8) }

  ghost predicate Legal(ask: Ask) { ask.Bytes? ==> ask.n > 0 }

  // Whole-block size that a request needs when placed at header `start`.
  function RequestSize(ask: Ask, start: int): int {
    match ask
    case Bytes(n) =>
      var r := RoundUp8(n) + BOUNDARY_SIZE;
      if r < MIN_BLOCKSIZE then MIN_BLOCKSIZE else r
    case Descriptor =>
      var u := (start + 4) % 64;
      if u != 0 then 128 - u + BOUNDARY_SIZE else 64 + BOUNDARY_SIZE
  }

  // ---------------------------------------------------------------- tiling

  // The blocks cover [lo, hi) without gaps or overlaps, aligned so that every
  // payload starts on an 8-byte boundary.
  ghost predicate Tiled(blocks: seq<Block>, lo: int, hi: int) {
    && (blocks == [] ==> lo == hi)
    && (blocks != [] ==> blocks[0].start == lo && blocks[|blocks| - 1].End() == hi)
    && (forall i :: 0 <= i < |blocks| ==>
          blocks[i].size >= MIN_BLOCKSIZE && blocks[i].Cut() && lo <= blocks[i].start && blocks[i].End() <= hi)
    && (forall i, j :: 0 <= i < j < |blocks| ==> blocks[i].End() <= blocks[j].start)
    && (forall i :: 0 <= i < |blocks| - 1 ==> blocks[i].End() == blocks[i + 1].start)
  }

  ghost predicate AllRoomy(blocks: seq<Block>) {
    forall i :: 0 <= i < |blocks| ==> blocks[i].Roomy()
  }

  predicate Vacant(b: Block) { b.tenant.Free? }

  // `r` is the header of a free block.
  ghost predicate FreeHeader(blocks: seq<Block>, r: int) {
    exists i :: 0 <= i < |blocks| && blocks[i].start == r && Vacant(blocks[i])
  }

  ghost predicate NoFreeNeighbours(blocks: seq<Block>) {
    forall i :: 0 <= i < |blocks| - 1 ==> !(Vacant(blocks[i]) && Vacant(blocks[i + 1]))
  }

  ghost predicate Distinct(ring: seq<int>) {
    forall i, j :: 0 <= i < j < |ring| ==> ring[i] != ring[j]
  }

  // The ring holds exactly the free blocks, each once.
  ghost predicate RingMatches(blocks: seq<Block>, ring: seq<int>) {
    && Distinct(ring)
    && (forall r :: r in ring <==> FreeHeader(blocks, r))
  }

  ghost predicate WellFormed(l: Layout, lo: int, hi: int) {
    && Tiled(l.blocks, lo, hi)
    && AllRoomy(l.blocks)
    && |l.blocks| > 0
    && Vacant(l.blocks[|l.blocks| - 1])
    && NoFreeNeighbours(l.blocks)
    && RingMatches(l.blocks, l.ring)
  }

  // ------------------------------------------------------------- operations

  function Splice(blocks: seq<Block>, i: nat, j: nat, mid: seq<Block>): seq<Block>
    requires i <= j <= |blocks|
  {
    blocks[..i] + mid + blocks[j..]
  }

  function Without(ring: seq<int>, h: int): (r: seq<int>)
    ensures |r| <= |ring|
  {
    if ring == [] then [] else if ring[0] == h then ring[1..] else [ring[0]] + Without(ring[1..], h)
  }

  // Index of the block whose header is `start`.
  function IndexOf(blocks: seq<Block>, start: int): (i: nat)
    ensures i <= |blocks|
    ensures i < |blocks| ==> blocks[i].start == start
    ensures i == |blocks| ==> forall k :: 0 <= k < |blocks| ==> blocks[k].start != start
  {
    if blocks == [] then 0
    else if blocks[0].start == start then 0
    else 1 + IndexOf(blocks[1..], start)
  }

  // A block is only ever split, so it must leave room for a smallest block.
  predicate Fits(b: Block, ask: Ask) {
    Vacant(b) && b.size >= RequestSize(ask, b.start) + MIN_BLOCKSIZE
  }

  predicate FitsAt(blocks: seq<Block>, header: int, ask: Ask) {
    var i := IndexOf(blocks, header);
    i < |blocks| && Fits(blocks[i], ask)
  }

  // First ring position, from `k` on, whose block fits; |ring| if there is none.
  function FirstFit(blocks: seq<Block>, ring: seq<int>, ask: Ask, k: nat): (r: nat)
    requires k <= |ring|
    ensures k <= r <= |ring|
    ensures forall m :: k <= m < r ==> !FitsAt(blocks, ring[m], ask)
    ensures r < |ring| ==> FitsAt(blocks, ring[r], ask)
    decreases |ring| - k
  {
    if k == |ring| || FitsAt(blocks, ring[k], ask) then k else FirstFit(blocks, ring, ask, k + 1)
  }

  // The requested size at the low end of `b`, and the rest.
  function SplitPieces(b: Block, ask: Ask): seq<Block> {
    var req := RequestSize(ask, b.start);
    [Block(b.start, req, Held(ask)), Block(b.start + req, b.size - req, Free)]
  }

  function Split(l: Layout, i: nat, ask: Ask): Layout
    requires i < |l.blocks|
  {
    var pieces := SplitPieces(l.blocks[i], ask);
    Layout(Splice(l.blocks, i, i + 1, pieces), [pieces[1].start] + Without(l.ring, pieces[0].start))
  }

  // malloc(n) and malloc_LLI(): the new layout and the pointer, 0 on failure.
  function Allocate(l: Layout, ask: Ask): (Layout, int) {
    var k := FirstFit(l.blocks, l.ring, ask, 0);
    if k == |l.ring| then (l, 0)
    else
      var i := IndexOf(l.blocks, l.ring[k]);
      (Split(l, i, ask), Block(l.ring[k], RequestSize(ask, l.ring[k]), Held(ask)).Pointer())
  }

  // First and one-past-last block that free merges around block i.
  function MergeFrom(blocks: seq<Block>, i: nat): (j: nat)
    requires i < |blocks|
    ensures j <= i
  {
    if i > 0 && Vacant(blocks[i - 1]) then i - 1 else i
  }

  function MergeTo(blocks: seq<Block>, i: nat): (j: nat)
    requires i < |blocks|
    ensures i < j <= |blocks|
  {
    if i + 1 < |blocks| && Vacant(blocks[i + 1]) then i + 2 else i + 1
  }

  function WithoutAll(ring: seq<int>, hs: seq<int>): seq<int>
    decreases hs
  {
    if hs == [] then ring else WithoutAll(Without(ring, hs[0]), hs[1..])
  }

  // Headers of the free blocks that disappear into the merge, upper one first.
  function Absorbed(blocks: seq<Block>, i: nat): seq<int>
    requires i < |blocks|
  {
    (if i + 1 < |blocks| && Vacant(blocks[i + 1]) then [blocks[i + 1].start] else []) +
    (if i > 0 && Vacant(blocks[i - 1]) then [blocks[i - 1].start] else [])
  }

  // What free merges: the block itself and its free neighbours.
  function Merged(blocks: seq<Block>, i: nat): Block
    requires i < |blocks|
  {
    var lowest, past := MergeFrom(blocks, i), MergeTo(blocks, i);
    Block(blocks[lowest].start, blocks[past - 1].End() - blocks[lowest].start, Free)
  }

  // free: give back block i, merged with whatever free neighbours it has.
  function Release(l: Layout, i: nat): Layout
    requires i < |l.blocks|
  {
    var m := Merged(l.blocks, i);
    Layout(Splice(l.blocks, MergeFrom(l.blocks, i), MergeTo(l.blocks, i), [m]),
           [m.start] + WithoutAll(l.ring, Absorbed(l.blocks, i)))
  }

  // The heap after heap_init.
  function Initial(lo: int, hi: int): Layout {
    Layout([Block(lo, hi - lo, Free)], [lo])
  }

  // ------------------------------------------------------- facts about tiles

  lemma Multiple(q: int)
    ensures 64 * q % 64 == 0 && 64 * q % 8 == 0
  {
    assert 64 * q == 8 * (8 * q);
  }

  lemma UnalignedPart(p: int)
    requires p % 8 == 0
    ensures p % 64 == 0 || 8 <= p % 64 <= 56
  {
    assert p % 64 == 8 * (p / 8 - 8 * (p / 64));
  }

  lemma AlignedPayloadGap(p: int)
    requires p % 8 == 0
    ensures AlignedPayload(p) % 64 == 0 && AlignedPayload(p) % 8 == 0
    ensures AlignedPayload(p) != p ==> p + 8 <= AlignedPayload(p) <= p + 56
  {
    UnalignedPart(p);
    var q, u := p / 64, p % 64;
    assert p == 64 * q + u;
    Multiple(if u == 0 then q else q + 1);
  }

  lemma RoundUpToEight(n: int)
    ensures RoundUp8(n) % 8 == 0 && n <= RoundUp8(n) < n + 8
    ensures AlignUp(n, 8) == RoundUp8(n)
  {
    var q := (n + 8 - 1) / 8;
    assert AlignUp(n, 8) == 8 * q;
  }

  lemma RoundDownToEight(n: int)
    ensures AlignDown(n, 8) % 8 == 0 && n - 8 < AlignDown(n, 8) <= n
  {
    var q := n / 8;
    assert AlignDown(n, 8) == 8 * q;
  }

  lemma RequestIsRoomy(ask: Ask, start: int)
    requires Legal(ask) && start % 8 == 4
    ensures RequestSize(ask, start) % 8 == 0 && RequestSize(ask, start) >= MIN_BLOCKSIZE
    ensures Block(start, RequestSize(ask, start), Held(ask)).Roomy()
  {
    hide RoundUp8;
    match ask
    case Bytes(n) => RoundUpToEight(n);
    case Descriptor =>
      var p := start + 4;
      assert p % 8 == 0;
      DescriptorSize(p);
  }

  // A descriptor's block ends exactly 64 bytes above its aligned payload.
  lemma DescriptorSize(p: int)
    requires p % 8 == 0
    ensures
      var r := RequestSize(Descriptor, p - 4);
      r % 8 == 0 && 72 <= r <= 128 && p - 4 + r - 4 == AlignedPayload(p) + LLI_SIZE
  {
    AlignedPayloadGap(p);
    var u, q := p % 64, p / 64;
    assert u == 8 * (p / 8 - 8 * q);
  }

  lemma TileAt(blocks: seq<Block>, lo: int, hi: int, i: nat)
    requires Tiled(blocks, lo, hi) && i < |blocks|
    ensures blocks[i].size >= MIN_BLOCKSIZE && blocks[i].Cut()
    ensures lo <= blocks[i].start && blocks[i].End() <= hi
  {
  }

  lemma TilesApart(blocks: seq<Block>, lo: int, hi: int, i: nat, k: nat)
    requires Tiled(blocks, lo, hi) && i < k < |blocks|
    ensures blocks[i].End() <= blocks[k].start
  {
  }

  // Replacing a block by two, and then the first of these by another.
  lemma SplicePair(blocks: seq<Block>, i: nat, x: Block, y: Block, z: Block)
    requires i < |blocks|
    ensures
      var split := Splice(blocks, i, i + 1, [x, y]);
      && |split| == |blocks| + 1 && Splice(split, i, i + 1, [z]) == Splice(blocks, i, i + 1, [z, y])
      && split[..i] + split[i + 1..] == blocks[..i] + [y] + blocks[i + 1..]
  {
    var split := Splice(blocks, i, i + 1, [x, y]);
    assert split[..i] == blocks[..i] && split[i + 1..] == [y] + blocks[i + 1..];
  }

  lemma SameHeader(blocks: seq<Block>, lo: int, hi: int, i: nat, k: nat)
    requires Tiled(blocks, lo, hi) && i < |blocks| && k < |blocks|
    requires blocks[i].start == blocks[k].start
    ensures i == k
  {
  }

  lemma IndexIsUnique(blocks: seq<Block>, lo: int, hi: int, i: nat)
    requires Tiled(blocks, lo, hi) && i < |blocks|
    ensures IndexOf(blocks, blocks[i].start) == i
  {
    SameHeader(blocks, lo, hi, i, IndexOf(blocks, blocks[i].start));
  }

  lemma TilesOfPrefix(blocks: seq<Block>, lo: int, hi: int, i: nat)
    requires Tiled(blocks, lo, hi) && i <= |blocks|
    ensures Tiled(blocks[..i], lo, if i < |blocks| then blocks[i].start else hi)
  {
    hide Block.Cut;
    var a := blocks[..i];
    if 0 < i < |blocks| { assert blocks[i - 1].End() == blocks[i].start; }
  }

  lemma TilesOfSuffix(blocks: seq<Block>, lo: int, hi: int, i: nat)
    requires Tiled(blocks, lo, hi) && i <= |blocks|
    ensures Tiled(blocks[i..], if i < |blocks| then blocks[i].start else hi, hi)
  {
    hide Block.Cut;
    var b := blocks[i..];
    assert forall k :: 0 <= k < |b| ==> b[k] == blocks[i + k];
  }

  lemma TilesOfConcat(a: seq<Block>, b: seq<Block>, lo: int, mid: int, hi: int)
    requires Tiled(a, lo, mid) && Tiled(b, mid, hi)
    ensures Tiled(a + b, lo, hi)
  {
    var s := a + b;
    assert forall k :: 0 <= k < |a| ==> s[k] == a[k];
    assert forall k :: |a| <= k < |s| ==> s[k] == b[k - |a|];
    if a != [] { assert lo <= mid; }
    if b != [] { assert mid <= hi; }
  }

  // Replacing a range of tiles by tiles of the same range keeps the tiling.
  lemma SpliceTiles(blocks: seq<Block>, lo: int, hi: int, i: nat, j: nat, mid: seq<Block>)
    requires Tiled(blocks, lo, hi) && i < j <= |blocks|
    requires Tiled(mid, blocks[i].start, blocks[j - 1].End())
    ensures Tiled(Splice(blocks, i, j, mid), lo, hi)
  {
    var m, n := blocks[i].start, blocks[j - 1].End();
    TilesOfPrefix(blocks, lo, hi, i);
    TilesOfSuffix(blocks, lo, hi, j);
    if j < |blocks| { assert blocks[j - 1].End() == blocks[j].start; }
    TilesOfConcat(blocks[..i], mid, lo, m, n);
    TilesOfConcat(blocks[..i] + mid, blocks[j..], lo, n, hi);
  }

  lemma FreeHeaderOfConcat(a: seq<Block>, b: seq<Block>, r: int)
    ensures FreeHeader(a + b, r) <==> FreeHeader(a, r) || FreeHeader(b, r)
  {
    if FreeHeader(a, r) {
      var i :| 0 <= i < |a| && a[i].start == r && Vacant(a[i]);
      assert (a + b)[i] == a[i];
    }
    if FreeHeader(b, r) {
      var i :| 0 <= i < |b| && b[i].start == r && Vacant(b[i]);
      assert (a + b)[|a| + i] == b[i];
    }
  }

  lemma FreeHeaderOfSplice(blocks: seq<Block>, i: nat, j: nat, mid: seq<Block>, r: int)
    requires i <= j <= |blocks|
    ensures FreeHeader(Splice(blocks, i, j, mid), r) <==>
      FreeHeader(blocks[..i], r) || FreeHeader(mid, r) || FreeHeader(blocks[j..], r)
    ensures FreeHeader(blocks, r) <==>
      FreeHeader(blocks[..i], r) || FreeHeader(blocks[i..j], r) || FreeHeader(blocks[j..], r)
  {
    FreeHeaderOfConcat(blocks[..i] + mid, blocks[j..], r);
    FreeHeaderOfConcat(blocks[..i], mid, r);
    FreeHeaderOfConcat(blocks[..i] + blocks[i..j], blocks[j..], r);
    FreeHeaderOfConcat(blocks[..i], blocks[i..j], r);
    assert blocks == blocks[..i] + blocks[i..j] + blocks[j..];
  }

  // A header inside the replaced range names no block outside it.
  lemma HeadersOutside(blocks: seq<Block>, lo: int, hi: int, i: nat, j: nat, r: int)
    requires Tiled(blocks, lo, hi) && i < j <= |blocks|
    requires blocks[i].start <= r < blocks[j - 1].End()
    ensures !FreeHeader(blocks[..i], r) && !FreeHeader(blocks[j..], r)
  {
    forall k | 0 <= k < i
      ensures blocks[..i][k].start < r
    {
      assert blocks[k].End() <= blocks[i].start;
    }
    forall k | 0 <= k < |blocks[j..]|
      ensures blocks[j..][k].start > r
    {
      assert blocks[j - 1].End() <= blocks[j + k].start;
    }
  }

  lemma WithoutMembers(ring: seq<int>, h: int)
    requires Distinct(ring)
    ensures Distinct(Without(ring, h))
    ensures forall r :: r in Without(ring, h) <==> r in ring && r != h
    ensures |Without(ring, h)| == if h in ring then |ring| - 1 else |ring|
  {
    if ring != [] {
      var rest := ring[1..];
      assert forall i, j :: 0 <= i < j < |rest| ==> rest[i] == ring[i + 1] && rest[j] == ring[j + 1];
      assert ring[0] !in rest;
      assert forall r :: r in ring <==> r == ring[0] || r in rest;
      if ring[0] != h { WithoutMembers(rest, h); }
    }
  }

  lemma DistinctCons(h: int, ring: seq<int>)
    requires Distinct(ring) && h !in ring
    ensures Distinct([h] + ring)
    ensures forall r :: r in [h] + ring <==> r == h || r in ring
  {
    var s := [h] + ring;
    forall i, j | 0 <= i < j < |s|
      ensures s[i] != s[j]
    {
      if i > 0 { assert ring[i - 1] != ring[j - 1]; }
    }
  }

  // Where the blocks of a splice come from.
  lemma SpliceIndex(blocks: seq<Block>, i: nat, j: nat, mid: seq<Block>)
    requires i <= j <= |blocks|
    ensures |Splice(blocks, i, j, mid)| == |blocks| - (j - i) + |mid|
    ensures forall k :: 0 <= k < i ==> Splice(blocks, i, j, mid)[k] == blocks[k]
    ensures forall k :: i <= k < i + |mid| ==> Splice(blocks, i, j, mid)[k] == mid[k - i]
    ensures forall k :: i + |mid| <= k < |Splice(blocks, i, j, mid)| ==>
      Splice(blocks, i, j, mid)[k] == blocks[k - i - |mid| + j]
  {
  }

  // No two free blocks become neighbours when the seams of a splice are safe.
  lemma SpliceNeighbours(blocks: seq<Block>, i: nat, j: nat, mid: seq<Block>)
    requires i < j <= |blocks| && mid != []
    requires NoFreeNeighbours(blocks) && NoFreeNeighbours(mid)
    requires i > 0 ==> !(Vacant(blocks[i - 1]) && Vacant(mid[0]))
    requires j < |blocks| ==> !(Vacant(mid[|mid| - 1]) && Vacant(blocks[j]))
    ensures NoFreeNeighbours(Splice(blocks, i, j, mid))
  {
    SpliceIndex(blocks, i, j, mid);
    var s := Splice(blocks, i, j, mid);
    forall k | 0 <= k < |s| - 1
      ensures !(Vacant(s[k]) && Vacant(s[k + 1]))
    {
      if k + 1 < i {
        assert !(Vacant(blocks[k]) && Vacant(blocks[k + 1]));
      } else if i <= k && k + 1 < i + |mid| {
        assert !(Vacant(mid[k - i]) && Vacant(mid[k - i + 1]));
      } else if i + |mid| <= k {
        var p := k - i - |mid| + j;
        assert s[k] == blocks[p] && s[k + 1] == blocks[p + 1];
      }
    }
  }

  // ----------------------------------------------- the operations keep order

  lemma SplitHeaders(l: Layout, lo: int, hi: int, i: nat, ask: Ask, r: int)
    requires WellFormed(l, lo, hi) && Legal(ask)
    requires i < |l.blocks| && Fits(l.blocks[i], ask)
    ensures
      var pieces := SplitPieces(l.blocks[i], ask);
      FreeHeader(Splice(l.blocks, i, i + 1, pieces), r) <==> r == pieces[1].start || (r in l.ring && r != pieces[0].start)
    ensures SplitPieces(l.blocks[i], ask)[1].start !in l.ring
  {
    hide Block.Cut, Block.Roomy, Block.Pointer;
    var b, pieces := l.blocks[i], SplitPieces(l.blocks[i], ask);
    TileAt(l.blocks, lo, hi, i);
    RequestIsRoomy(ask, b.start);
    hide RequestSize, NoFreeNeighbours, AllRoomy;
    HeadersOutside(l.blocks, lo, hi, i, i + 1, b.start);
    HeadersOutside(l.blocks, lo, hi, i, i + 1, pieces[1].start);
    FreeHeaderOfSplice(l.blocks, i, i + 1, pieces, r);
    FreeHeaderOfSplice(l.blocks, i, i + 1, pieces, pieces[1].start);
    assert FreeHeader(pieces, r) <==> r == pieces[1].start;
    assert l.blocks[i..i + 1] == [b] && [b][0] == b;
  }

  lemma SplitKeepsRing(l: Layout, lo: int, hi: int, i: nat, ask: Ask)
    requires WellFormed(l, lo, hi) && Legal(ask)
    requires i < |l.blocks| && Fits(l.blocks[i], ask)
    ensures RingMatches(Split(l, i, ask).blocks, Split(l, i, ask).ring)
  {
    hide FreeHeader, Tiled;
    var start := l.blocks[i].start;
    var rest := SplitPieces(l.blocks[i], ask)[1].start;
    WithoutMembers(l.ring, start);
    forall r
      ensures FreeHeader(Split(l, i, ask).blocks, r) <==> r == rest || r in Without(l.ring, start)
    {
      SplitHeaders(l, lo, hi, i, ask, r);
    }
    SplitHeaders(l, lo, hi, i, ask, rest);
    DistinctCons(rest, Without(l.ring, start));
  }

  lemma SplitTiles(b: Block, ask: Ask)
    requires Legal(ask) && Fits(b, ask) && b.Cut()
    ensures Tiled(SplitPieces(b, ask), b.start, b.End()) && AllRoomy(SplitPieces(b, ask))
  {
    RequestAligned(ask, b);
    hide RequestSize, Block.Roomy, Block.Cut, Tiled, AlignedPayload;
    var mid := SplitPieces(b, ask);
    RequestIsRoomy(ask, b.start);
    CutPieces(b, RequestSize(ask, b.start), Held(ask));
    FreeIsRoomy(mid[1]);
    TwoTiles(mid[0], mid[1]);
  }

  lemma RequestAligned(ask: Ask, b: Block)
    requires Legal(ask) && Fits(b, ask) && b.Cut()
    ensures b.start % 8 == 4 && MIN_BLOCKSIZE <= RequestSize(ask, b.start) <= b.size - MIN_BLOCKSIZE
    ensures RequestSize(ask, b.start) % 8 == 0
  {
    RequestIsRoomy(ask, b.start);
    hide RequestSize, Block.Roomy;
  }

  lemma CutPieces(b: Block, low: int, tenant: Tenant)
    requires b.Cut() && low % 8 == 0
    ensures Block(b.start, low, tenant).Cut() && Block(b.start + low, b.size - low, Free).Cut()
  {
  }

  lemma TwoTiles(a: Block, b: Block)
    requires a.Cut() && b.Cut() && a.size >= MIN_BLOCKSIZE && b.size >= MIN_BLOCKSIZE && a.End() == b.start
    ensures Tiled([a, b], a.start, b.End())
  {
    hide Block.Cut;
  }

  lemma FreeIsRoomy(b: Block)
    requires Vacant(b) && b.size >= MIN_BLOCKSIZE
    ensures b.Roomy()
  {
  }

  lemma SpliceRoomy(blocks: seq<Block>, i: nat, j: nat, mid: seq<Block>)
    requires i <= j <= |blocks| && AllRoomy(blocks) && AllRoomy(mid)
    ensures AllRoomy(Splice(blocks, i, j, mid))
  {
    SpliceIndex(blocks, i, j, mid);
    var s := Splice(blocks, i, j, mid);
    forall k | 0 <= k < |s|
      ensures s[k].Roomy()
    {
      assert k < i || (i <= k < i + |mid|) || i + |mid| <= k;
    }
  }

  lemma SplitKeepsOrder(l: Layout, lo: int, hi: int, i: nat, ask: Ask)
    requires WellFormed(l, lo, hi) && Legal(ask)
    requires i < |l.blocks| && Fits(l.blocks[i], ask)
    ensures WellFormed(Split(l, i, ask), lo, hi)
  {
    hide Tiled, AllRoomy, RequestSize;
    var mid := SplitPieces(l.blocks[i], ask);
    TileAt(l.blocks, lo, hi, i);
    SplitTiles(l.blocks[i], ask);
    SpliceTiles(l.blocks, lo, hi, i, i + 1, mid);
    SpliceRoomy(l.blocks, i, i + 1, mid);
    SpliceIndex(l.blocks, i, i + 1, mid);
    SpliceNeighbours(l.blocks, i, i + 1, mid);
    SplitKeepsRing(l, lo, hi, i, ask);
  }

  // Every allocation request, served or refused, keeps the layout in order.
  lemma AllocateKeepsOrder(l: Layout, lo: int, hi: int, ask: Ask)
    requires WellFormed(l, lo, hi) && Legal(ask)
    ensures WellFormed(Allocate(l, ask).0, lo, hi)
  {
    var k := FirstFit(l.blocks, l.ring, ask, 0);
    if k < |l.ring| {
      SplitKeepsOrder(l, lo, hi, IndexOf(l.blocks, l.ring[k]), ask);
    }
  }

  lemma MergedTile(blocks: seq<Block>, lo: int, hi: int, i: nat)
    requires Tiled(blocks, lo, hi) && i < |blocks|
    ensures Tiled([Merged(blocks, i)], blocks[MergeFrom(blocks, i)].start, blocks[MergeTo(blocks, i) - 1].End())
    ensures AllRoomy([Merged(blocks, i)])
  {
    var lowest, past, m := MergeFrom(blocks, i), MergeTo(blocks, i), Merged(blocks, i);
    assert blocks[lowest].Cut() && blocks[i].Cut() && blocks[past - 1].Cut();
    if lowest < i { assert blocks[lowest].End() == blocks[lowest + 1].start; }
    if i + 1 < past { assert blocks[i].End() == blocks[i + 1].start; }
    var below := if lowest < i then blocks[lowest].size else 0;
    var above := if i + 1 < past then blocks[past - 1].size else 0;
    assert m.size == below + blocks[i].size + above;
    SumOfEights(below, blocks[i].size, above);
    assert m.size >= MIN_BLOCKSIZE && m.Cut() && m.End() == blocks[past - 1].End();
  }

  lemma SumOfEights(a: int, b: int, c: int)
    requires a % 8 == 0 && b % 8 == 0 && c % 8 == 0
    ensures (a + b + c) % 8 == 0
  {
  }

  lemma AbsorbedHeaders(l: Layout, lo: int, hi: int, i: nat, r: int)
    requires WellFormed(l, lo, hi) && i < |l.blocks| && !Vacant(l.blocks[i])
    ensures FreeHeader(l.blocks[MergeFrom(l.blocks, i)..MergeTo(l.blocks, i)], r) <==> r in Absorbed(l.blocks, i)
  {
    hide Tiled, AllRoomy, NoFreeNeighbours, RingMatches;
    var lowest, past := MergeFrom(l.blocks, i), MergeTo(l.blocks, i);
    var below, above := l.blocks[lowest..i], l.blocks[i + 1..past];
    assert l.blocks[lowest..past] == below + ([l.blocks[i]] + above);
    FreeHeaderOfConcat(below, [l.blocks[i]] + above, r);
    FreeHeaderOfConcat([l.blocks[i]], above, r);
    if lowest < i { assert below == [l.blocks[i - 1]] && below[0] == l.blocks[i - 1]; }
    if i + 1 < past { assert above == [l.blocks[i + 1]] && above[0] == l.blocks[i + 1]; }
  }

  lemma {:induction false} WithoutAllMembers(ring: seq<int>, hs: seq<int>)
    requires Distinct(ring)
    ensures Distinct(WithoutAll(ring, hs))
    ensures forall r :: r in WithoutAll(ring, hs) <==> r in ring && r !in hs
    decreases hs
  {
    if hs != [] {
      WithoutMembers(ring, hs[0]);
      WithoutAllMembers(Without(ring, hs[0]), hs[1..]);
    }
  }

  lemma ReleaseKeepsRing(l: Layout, lo: int, hi: int, i: nat)
    requires WellFormed(l, lo, hi) && i < |l.blocks| && !Vacant(l.blocks[i])
    ensures RingMatches(Release(l, i).blocks, Release(l, i).ring)
  {
    hide Block.Cut, Block.Roomy, Block.Pointer;
    var lowest, past := MergeFrom(l.blocks, i), MergeTo(l.blocks, i);
    var m := Merged(l.blocks, i);
    MergedTile(l.blocks, lo, hi, i);
    HeadersOutside(l.blocks, lo, hi, lowest, past, m.start);
    var gone := Absorbed(l.blocks, i);
    WithoutAllMembers(l.ring, gone);
    var kept := WithoutAll(l.ring, gone);
    forall r
      ensures FreeHeader(Release(l, i).blocks, r) <==> r == m.start || r in kept
    {
      FreeHeaderOfSplice(l.blocks, lowest, past, [m], r);
      AbsorbedHeaders(l, lo, hi, i, r);
      assert FreeHeader([m], r) <==> r == m.start by { assert [m][0] == m; }
      if r in gone { AbsorbedOutside(l, lo, hi, i, r); }
    }
    assert m.start !in kept by {
      FreeHeaderOfSplice(l.blocks, lowest, past, [m], m.start);
      AbsorbedHeaders(l, lo, hi, i, m.start);
    }
    DistinctCons(m.start, kept);
  }

  lemma AbsorbedOutside(l: Layout, lo: int, hi: int, i: nat, r: int)
    requires WellFormed(l, lo, hi) && i < |l.blocks| && r in Absorbed(l.blocks, i)
    ensures !FreeHeader(l.blocks[..MergeFrom(l.blocks, i)], r) && !FreeHeader(l.blocks[MergeTo(l.blocks, i)..], r)
  {
    HeadersOutside(l.blocks, lo, hi, MergeFrom(l.blocks, i), MergeTo(l.blocks, i), r);
  }

  // What borders on the merged block is in use.
  lemma MergeSeams(blocks: seq<Block>, i: nat)
    requires NoFreeNeighbours(blocks) && i < |blocks|
    ensures MergeFrom(blocks, i) > 0 ==> !Vacant(blocks[MergeFrom(blocks, i) - 1])
    ensures MergeTo(blocks, i) < |blocks| ==> !Vacant(blocks[MergeTo(blocks, i)])
  {
    var lowest, past := MergeFrom(blocks, i), MergeTo(blocks, i);
    if 0 < lowest < i {
      var k := lowest - 1;
      var a, b := blocks[k], blocks[k + 1];
      assert !(Vacant(a) && Vacant(b));
    }
    if i + 1 < past < |blocks| {
      var a, b := blocks[i + 1], blocks[i + 2];
      assert !(Vacant(a) && Vacant(b));
    }
  }

  lemma ReleaseNeighbours(l: Layout, i: nat)
    requires NoFreeNeighbours(l.blocks) && i < |l.blocks| && Vacant(l.blocks[|l.blocks| - 1])
    ensures NoFreeNeighbours(Release(l, i).blocks)
    ensures |Release(l, i).blocks| > 0 && Vacant(Release(l, i).blocks[|Release(l, i).blocks| - 1])
  {
    var lowest, past, m := MergeFrom(l.blocks, i), MergeTo(l.blocks, i), Merged(l.blocks, i);
    MergeSeams(l.blocks, i);
    SpliceNeighbours(l.blocks, lowest, past, [m]);
    SpliceIndex(l.blocks, lowest, past, [m]);
  }

  // Giving back a held block keeps the layout in order, whatever its neighbours.
  lemma ReleaseKeepsOrder(l: Layout, lo: int, hi: int, i: nat)
    requires WellFormed(l, lo, hi) && i < |l.blocks| && !Vacant(l.blocks[i])
    ensures WellFormed(Release(l, i), lo, hi)
  {
    var lowest, past := MergeFrom(l.blocks, i), MergeTo(l.blocks, i);
    var m := Merged(l.blocks, i);
    MergedTile(l.blocks, lo, hi, i);
    SpliceTiles(l.blocks, lo, hi, lowest, past, [m]);
    SpliceRoomy(l.blocks, lowest, past, [m]);
    ReleaseNeighbours(l, i);
    ReleaseKeepsRing(l, lo, hi, i);
  }

  lemma InitialInOrder(lo: int, hi: int)
    requires lo % 8 == 4 && (hi - lo) % 8 == 0 && hi - lo >= MIN_BLOCKSIZE
    ensures WellFormed(Initial(lo, hi), lo, hi)
  {
    var l := Initial(lo, hi);
    assert l.blocks[0].start == lo;
  }

  // --------------------------------------------------------------- counting

  lemma {:induction false} BlocksAreFew(blocks: seq<Block>, lo: int, hi: int)
    requires Tiled(blocks, lo, hi)
    ensures MIN_BLOCKSIZE * |blocks| <= hi - lo
    decreases |blocks|
  {
    if blocks != [] {
      TilesOfPrefix(blocks, lo, hi, |blocks| - 1);
      BlocksAreFew(blocks[..|blocks| - 1], lo, blocks[|blocks| - 1].start);
    }
  }

  lemma {:induction false} DistinctCount(ring: seq<int>)
    requires Distinct(ring)
    ensures |set r | r in ring| == |ring|
  {
    if ring != [] {
      var rest := ring[1..];
      assert forall i, j :: 0 <= i < j < |rest| ==> rest[i] == ring[i + 1] && rest[j] == ring[j + 1];
      DistinctCount(rest);
      assert ring[0] !in rest;
      assert forall r :: r in ring <==> r == ring[0] || r in rest;
      assert (set r | r in ring) == (set r | r in rest) + {ring[0]};
    }
  }

  function Headers(blocks: seq<Block>): (s: set<int>)
    ensures |s| <= |blocks|
    ensures forall i :: 0 <= i < |blocks| ==> blocks[i].start in s
  {
    if blocks == [] then {} else Headers(blocks[1..]) + {blocks[0].start}
  }

  // The ring is no longer than the list of blocks, and both fit the heap.
  lemma RingIsShort(l: Layout, lo: int, hi: int)
    requires Tiled(l.blocks, lo, hi) && RingMatches(l.blocks, l.ring)
    ensures MIN_BLOCKSIZE * |l.ring| <= MIN_BLOCKSIZE * |l.blocks| <= hi - lo
  {
    BlocksAreFew(l.blocks, lo, hi);
    DistinctCount(l.ring);
    var s := set r | r in l.ring;
    forall r | r in s
      ensures r in Headers(l.blocks)
    {
      assert FreeHeader(l.blocks, r);
    }
    Subset(s, Headers(l.blocks));
  }

  lemma Subset(a: set<int>, b: set<int>)
    requires a <= b
    ensures |a| <= |b|
  {
    assert a + (b - a) == b;
    assert |a + (b - a)| == |a| + |b - a|;
  }
}
