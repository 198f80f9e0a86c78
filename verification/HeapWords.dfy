// How a layout is laid down in memory words: a tag at both ends of every
// block, the two link words inside every free block, and a back-pointer in
// front of every descriptor that had to be moved up to a 64-byte boundary.
module HeapWords {
  import opened BoundaryTag
  import opened BlockLayout

  // Memory words by their byte address.
  type Words = map<int, int>

  // ------------------------------------------------------------------- tags

  ghost predicate Tag(w: Words, a: int, size: int, used: bool) {
    && a in w
    && SizeOf(w[a]) == size
    && UsedBit(w[a]) == (if used then 1 else 0)
  }

  ghost predicate Sized(w: Words, a: int, size: int) { a in w && SizeOf(w[a]) == size }

  ghost predicate UsedIs(w: Words, a: int, used: bool) { a in w && UsedBit(w[a]) == (if used then 1 else 0) }

  ghost predicate Tagged(w: Words, b: Block) {
    && Tag(w, b.start, b.size, !Vacant(b))
    && Tag(w, b.End() - 4, b.size, !Vacant(b))
  }

  ghost predicate AllTagged(w: Words, blocks: seq<Block>) {
    forall i :: 0 <= i < |blocks| ==> Tagged(w, blocks[i])
  }

  // The prologue's two tags below the first block and the epilogue's header.
  ghost predicate Sentinels(w: Words, lo: int, hi: int) {
    && Tag(w, lo - 8, 8, true)
    && Tag(w, lo - 4, 8, true)
    && Tag(w, hi, 0, true)
  }

  ghost predicate BackPointer(w: Words, b: Block) {
    b.Pointer() != b.Payload() ==> b.Pointer() - 4 in w && w[b.Pointer() - 4] == b.Payload()
  }

  ghost predicate AllBackPointers(w: Words, blocks: seq<Block>) {
    forall i :: 0 <= i < |blocks| ==> BackPointer(w, blocks[i])
  }

  // ------------------------------------------------------------------ links

  function After(ring: seq<int>, j: nat): int
    requires j < |ring|
  {
    if j + 1 < |ring| then ring[j + 1] else ring[0]
  }

  function Before(ring: seq<int>, j: nat): int
    requires j < |ring|
  {
    if j > 0 then ring[j - 1] else ring[|ring| - 1]
  }

  ghost predicate LinkedAt(w: Words, ring: seq<int>, j: nat)
    requires j < |ring|
  {
    && ring[j] + 4 in w && w[ring[j] + 4] == Before(ring, j)
    && ring[j] + 8 in w && w[ring[j] + 8] == After(ring, j)
  }

  ghost predicate Linked(w: Words, ring: seq<int>) {
    forall j :: 0 <= j < |ring| ==> LinkedAt(w, ring, j)
  }

  // Link words lie inside a block and never on a tag.
  ghost predicate PlacedAt(r: int, lo: int, hi: int) {
    r % 8 == 4 && lo <= r && r + MIN_BLOCKSIZE <= hi
  }

  ghost predicate Placed(ring: seq<int>, lo: int, hi: int) {
    forall r :: r in ring ==> PlacedAt(r, lo, hi)
  }

  ghost predicate Represents(w: Words, l: Layout, lo: int, hi: int) {
    && Sentinels(w, lo, hi)
    && AllTagged(w, l.blocks)
    && AllBackPointers(w, l.blocks)
    && Linked(w, l.ring)
  }

  // ----------------------------------------------------------------- frames

  // Nothing changes outside [m, n).
  ghost predicate SameOutside(w: Words, v: Words, m: int, n: int) {
    forall a :: a in w ==> a in v && (a < m || n <= a ==> v[a] == w[a])
  }

  // Nothing changes but the link words of ring members.
  ghost predicate SameButLinks(w: Words, v: Words, ring: seq<int>) {
    forall a :: a in w ==> a in v && (a - 4 !in ring && a - 8 !in ring ==> v[a] == w[a])
  }

  // Every payload word of a block in use keeps its value.
  ghost predicate KeepsPayloads(w: Words, v: Words, blocks: seq<Block>) {
    forall i, a :: 0 <= i < |blocks| && !Vacant(blocks[i]) && a in w && InPayload(blocks[i], a) ==>
      a in v && v[a] == w[a]
  }

  predicate InPayload(b: Block, a: int) { b.Payload() <= a < b.End() - 4 }

  function InsertWrites(w: Words, head: int, b: int, tail: int): Words {
    w[b + 8 := head][head + 4 := b][tail + 8 := b][b + 4 := tail]
  }

  function DeleteWrites(w: Words, prev: int, next: int): Words {
    w[next + 4 := prev][prev + 8 := next]
  }

  lemma InsertWritesAt(w: Words, head: int, b: int, tail: int, x: int)
    requires x % 8 == 4 && head % 8 == 4 && b % 8 == 4 && tail % 8 == 4 && tail != b
    requires x != b ==> x + 4 in w && x + 8 in w
    ensures
      var v := InsertWrites(w, head, b, tail);
      && x + 4 in v && v[x + 4] == (if x == b then tail else if x == head then b else w[x + 4])
      && x + 8 in v && v[x + 8] == (if x == tail then b else if x == b then head else w[x + 8])
  {
  }

  lemma DeleteWritesAt(w: Words, x: int, prev: int, next: int)
    requires x % 8 == 4 && prev % 8 == 4 && next % 8 == 4
    requires x + 4 in w && x + 8 in w
    ensures
      var v := DeleteWrites(w, prev, next);
      && x + 4 in v && v[x + 4] == (if x == next then prev else w[x + 4])
      && x + 8 in v && v[x + 8] == (if x == prev then next else w[x + 8])
  {
  }

  lemma InsertLinks(w: Words, ring: seq<int>, b: int)
    requires Linked(w, ring) && Distinct([b] + ring) && ring != []
    requires forall r :: r in [b] + ring ==> r % 8 == 4
    ensures Linked(InsertWrites(w, ring[0], b, ring[|ring| - 1]), [b] + ring)
  {
    var s, n := [b] + ring, |ring|;
    var head, tail := ring[0], ring[n - 1];
    var v := InsertWrites(w, head, b, tail);
    assert s[0] == b && s[1] == head && s[n] == tail;
    forall j | 0 <= j < |s|
      ensures LinkedAt(v, s, j)
    {
      assert s[j] in s && head in s && tail in s && b in s;
      if j > 0 { assert s[j] == ring[j - 1] && LinkedAt(w, ring, j - 1); }
      InsertWritesAt(w, head, b, tail, s[j]);
      assert s[j] == b <==> j == 0;
      assert s[j] == head <==> j == 1;
      assert s[j] == tail <==> j == n;
    }
  }

  // Positions before and after j in the ring.
  function PrevIndex(ring: seq<int>, j: nat): (p: nat)
    requires j < |ring|
    ensures p < |ring| && ring[p] == Before(ring, j)
  {
    if j > 0 then j - 1 else |ring| - 1
  }

  function NextIndex(ring: seq<int>, j: nat): (q: nat)
    requires j < |ring|
    ensures q < |ring| && ring[q] == After(ring, j)
  {
    if j + 1 < |ring| then j + 1 else 0
  }

  lemma DeleteLinks(w: Words, ring: seq<int>, j: nat)
    requires Linked(w, ring) && Distinct(ring) && j < |ring|
    requires forall r :: r in ring ==> r % 8 == 4
    ensures Linked(DeleteWrites(w, Before(ring, j), After(ring, j)), ring[..j] + ring[j + 1..])
  {
    var s := ring[..j] + ring[j + 1..];
    var v := DeleteWrites(w, Before(ring, j), After(ring, j));
    forall k | 0 <= k < |s|
      ensures LinkedAt(v, s, k)
    {
      var m := if k < j then k else k + 1;
      var p, q := PrevIndex(ring, j), NextIndex(ring, j);
      assert s[k] == ring[m] && LinkedAt(w, ring, m);
      DeleteNeighbours(ring, j, k);
      assert ring[m] in ring && ring[p] in ring && ring[q] in ring;
      DeleteWritesAt(w, ring[m], ring[p], ring[q]);
      assert ring[m] == ring[q] <==> m == q;
      assert ring[m] == ring[p] <==> m == p;
    }
  }

  // Removing position j only changes who follows its predecessor and who
  // precedes its successor.
  lemma DeleteNeighbours(ring: seq<int>, j: nat, k: nat)
    requires j < |ring| && |ring| >= 2 && k < |ring| - 1
    ensures
      var s := ring[..j] + ring[j + 1..];
      var m := if k < j then k else k + 1;
      var p, q := PrevIndex(ring, j), NextIndex(ring, j);
      && Before(s, k) == (if m == q then ring[p] else Before(ring, m))
      && After(s, k) == (if m == p then ring[q] else After(ring, m))
  {
  }

  lemma {:induction false} WithoutAt(ring: seq<int>, j: nat)
    requires Distinct(ring) && j < |ring|
    ensures Without(ring, ring[j]) == ring[..j] + ring[j + 1..]
  {
    if j == 0 {
      assert ring[..0] + ring[1..] == ring[1..];
    } else {
      var rest := ring[1..];
      assert rest[j - 1] == ring[j] && ring[0] != ring[j];
      assert forall a, b :: 0 <= a < b < |rest| ==> rest[a] == ring[a + 1] && rest[b] == ring[b + 1];
      WithoutAt(rest, j - 1);
      assert ring[..j] + ring[j + 1..] == [ring[0]] + (rest[..j - 1] + rest[j..]);
    }
  }

  // Link words of free blocks are neither tags, nor payload of another block.
  lemma LinksMissTags(blocks: seq<Block>, lo: int, hi: int, r: int, i: nat)
    requires Tiled(blocks, lo, hi) && FreeHeader(blocks, r) && i < |blocks|
    ensures r + 4 != blocks[i].start && r + 8 != blocks[i].start
    ensures r + 4 != blocks[i].End() - 4 && r + 8 != blocks[i].End() - 4
    ensures lo <= r && r + MIN_BLOCKSIZE <= hi && r % 8 == 4
    ensures !Vacant(blocks[i]) ==> !InPayload(blocks[i], r + 4) && !InPayload(blocks[i], r + 8)
  {
    var k :| 0 <= k < |blocks| && blocks[k].start == r && Vacant(blocks[k]);
    if k < i { assert blocks[k].End() <= blocks[i].start; }
    if i < k { assert blocks[i].End() <= blocks[k].start; }
  }

  // Relinking the ring disturbs neither tags, back-pointers nor payloads.
  lemma LinkWritesAreHarmless(w: Words, v: Words, blocks: seq<Block>, ring: seq<int>, lo: int, hi: int)
    requires Tiled(blocks, lo, hi) && AllRoomy(blocks)
    requires forall r :: r in ring ==> FreeHeader(blocks, r)
    requires Sentinels(w, lo, hi) && AllTagged(w, blocks) && AllBackPointers(w, blocks)
    requires SameButLinks(w, v, ring)
    ensures Sentinels(v, lo, hi) && AllTagged(v, blocks) && AllBackPointers(v, blocks)
    ensures KeepsPayloads(w, v, blocks)
  {
    forall i | 0 <= i < |blocks|
      ensures Tagged(v, blocks[i]) && BackPointer(v, blocks[i])
      ensures forall a :: !Vacant(blocks[i]) && a in w && InPayload(blocks[i], a) ==> a in v && v[a] == w[a]
    {
      LinksMissBlock(w, v, blocks, ring, lo, hi, i);
    }
    hide Tagged, BackPointer, InPayload;
    if ring != [] { LinksMissTags(blocks, lo, hi, ring[0], 0); }
    LinksMissSentinels(w, v, blocks, ring, lo, hi);
  }

  lemma LinksMissSentinels(w: Words, v: Words, blocks: seq<Block>, ring: seq<int>, lo: int, hi: int)
    requires Tiled(blocks, lo, hi) && (forall r :: r in ring ==> FreeHeader(blocks, r)) && SameButLinks(w, v, ring)
    requires Sentinels(w, lo, hi)
    ensures Sentinels(v, lo, hi)
  {
    forall r | r in ring
      ensures lo <= r && r + MIN_BLOCKSIZE <= hi
    {
      assert FreeHeader(blocks, r);
      LinksMissTags(blocks, lo, hi, r, 0);
    }
    hide Tiled, FreeHeader;
    TagUnlinked(w, v, ring, lo - 8);
    TagUnlinked(w, v, ring, lo - 4);
    TagUnlinked(w, v, ring, hi);
  }

  lemma LinksMissBlock(w: Words, v: Words, blocks: seq<Block>, ring: seq<int>, lo: int, hi: int, i: nat)
    requires Tiled(blocks, lo, hi) && AllRoomy(blocks) && i < |blocks|
    requires forall r :: r in ring ==> FreeHeader(blocks, r)
    requires AllTagged(w, blocks) && AllBackPointers(w, blocks) && SameButLinks(w, v, ring)
    ensures Tagged(v, blocks[i]) && BackPointer(v, blocks[i])
    ensures forall a :: !Vacant(blocks[i]) && a in w && InPayload(blocks[i], a) ==> a in v && v[a] == w[a]
  {
    var b := blocks[i];
    forall r | r in ring
      ensures MissesBlock(b, r)
    {
      LinksMissTags(blocks, lo, hi, r, i);
    }
    TileAt(blocks, lo, hi, i);
    assert Tagged(w, b) && BackPointer(w, b) && b.Roomy();
    hide Block.Cut, Tiled, AllRoomy, AllTagged, AllBackPointers, FreeHeader, MissesBlock, Tagged, BackPointer, Block.Roomy, SameButLinks, InPayload;
    BlockUnlinked(w, v, ring, b);
  }

  // Neither link word of block r is a tag or in the payload of block b.
  predicate MissesBlock(b: Block, r: int) {
    && r + 4 != b.start && r + 8 != b.start && r + 4 != b.End() - 4 && r + 8 != b.End() - 4
    && (!Vacant(b) ==> !InPayload(b, r + 4) && !InPayload(b, r + 8))
  }

  lemma BlockUnlinked(w: Words, v: Words, ring: seq<int>, b: Block)
    requires Tagged(w, b) && BackPointer(w, b) && b.Roomy() && b.Cut() && SameButLinks(w, v, ring)
    requires forall r :: r in ring ==> MissesBlock(b, r)
    ensures Tagged(v, b) && BackPointer(v, b)
    ensures forall a :: !Vacant(b) && a in w && InPayload(b, a) ==> a in v && v[a] == w[a]
  {
    hide SizeOf, UsedBit, AlignedPayload;
    if b.Pointer() != b.Payload() {
      PointerInPayload(b);
      hide Block.Roomy, Block.Pointer;
      TagUnlinked(w, v, ring, b.Pointer() - 4);
    }
    hide Block.Roomy, Block.Pointer;
    TagUnlinked(w, v, ring, b.start);
    TagUnlinked(w, v, ring, b.End() - 4);
  }

  lemma TagUnlinked(w: Words, v: Words, ring: seq<int>, a: int)
    requires SameButLinks(w, v, ring) && a in w
    requires forall r :: r in ring ==> r + 4 != a && r + 8 != a
    ensures a in v && v[a] == w[a]
  {
  }

  // A moved-up descriptor leaves a word in front of it, inside its payload.
  lemma PointerInPayload(b: Block)
    requires b.Roomy() && b.start % 8 == 4 && b.Pointer() != b.Payload()
    ensures !Vacant(b) && InPayload(b, b.Pointer() - 4) && b.Pointer() - 4 >= b.Payload() + 4
    ensures b.Pointer() % 8 == 0
  {
    hide AlignedPayload;
    AlignedPayloadGap(b.Payload());
  }

  // A block outside the rewritten bytes keeps its tags, back-pointer and payload.
  lemma BlockOutside(w: Words, v: Words, b: Block, m: int, n: int)
    requires Tagged(w, b) && BackPointer(w, b) && b.Roomy() && b.Cut() && b.size >= MIN_BLOCKSIZE
    requires SameOutside(w, v, m, n) && (b.End() <= m || n <= b.start)
    ensures Tagged(v, b) && BackPointer(v, b)
    ensures forall a :: a in w && InPayload(b, a) ==> a in v && v[a] == w[a]
  {
    if b.Pointer() != b.Payload() { PointerInPayload(b); }
  }

  // Rewriting the tiles i..j within their own bytes leaves the rest in place.
  lemma RegionRewrite(w: Words, v: Words, blocks: seq<Block>, lo: int, hi: int, i: nat, j: nat, mid: seq<Block>)
    requires Tiled(blocks, lo, hi) && AllRoomy(blocks) && i < j <= |blocks|
    requires Sentinels(w, lo, hi) && AllTagged(w, blocks) && AllBackPointers(w, blocks)
    requires SameOutside(w, v, blocks[i].start, blocks[j - 1].End())
    requires AllTagged(v, mid) && AllBackPointers(v, mid)
    ensures Sentinels(v, lo, hi)
    ensures AllTagged(v, Splice(blocks, i, j, mid)) && AllBackPointers(v, Splice(blocks, i, j, mid))
    ensures KeepsPayloads(w, v, blocks[..i] + blocks[j..])
  {
    SentinelsOutside(w, v, blocks, lo, hi, i, j);
    forall k | 0 <= k < |blocks| && (k < i || j <= k)
      ensures Tagged(v, blocks[k]) && BackPointer(v, blocks[k])
      ensures forall a :: a in w && InPayload(blocks[k], a) ==> a in v && v[a] == w[a]
    {
      KeptBlock(w, v, blocks, lo, hi, i, j, k);
    }
    hide Tiled, AllRoomy, Sentinels, Tagged, BackPointer, SameOutside, InPayload;
    SpliceIndex(blocks, i, j, mid);
    var s, kept := Splice(blocks, i, j, mid), blocks[..i] + blocks[j..];
    forall k | 0 <= k < |s|
      ensures Tagged(v, s[k]) && BackPointer(v, s[k])
    {
      assert k < i || (i <= k < i + |mid|) || i + |mid| <= k;
    }
    forall k, a | 0 <= k < |kept| && !Vacant(kept[k]) && a in w && InPayload(kept[k], a)
      ensures a in v && v[a] == w[a]
    {
      assert kept[k] == blocks[if k < i then k else k - i + j];
    }
  }

  lemma SentinelsOutside(w: Words, v: Words, blocks: seq<Block>, lo: int, hi: int, i: nat, j: nat)
    requires Tiled(blocks, lo, hi) && i < j <= |blocks| && Sentinels(w, lo, hi)
    requires SameOutside(w, v, blocks[i].start, blocks[j - 1].End())
    ensures Sentinels(v, lo, hi)
  {
    TileAt(blocks, lo, hi, i);
    TileAt(blocks, lo, hi, j - 1);
    hide Tiled;
  }

  lemma KeptBlock(w: Words, v: Words, blocks: seq<Block>, lo: int, hi: int, i: nat, j: nat, k: nat)
    requires Tiled(blocks, lo, hi) && AllRoomy(blocks) && i < j <= |blocks| && k < |blocks| && (k < i || j <= k)
    requires AllTagged(w, blocks) && AllBackPointers(w, blocks)
    requires SameOutside(w, v, blocks[i].start, blocks[j - 1].End())
    ensures Tagged(v, blocks[k]) && BackPointer(v, blocks[k])
    ensures forall a :: a in w && InPayload(blocks[k], a) ==> a in v && v[a] == w[a]
  {
    TileAt(blocks, lo, hi, k);
    assert blocks[k].Roomy() && Tagged(w, blocks[k]) && BackPointer(w, blocks[k]);
    if k < i { TilesApart(blocks, lo, hi, k, i); } else { TilesApart(blocks, lo, hi, j - 1, k); }
    hide Tiled, AllRoomy, AllTagged, AllBackPointers, Tagged, BackPointer, SameOutside, Block.Roomy;
    BlockOutside(w, v, blocks[k], blocks[i].start, blocks[j - 1].End());
  }

  lemma LinksKept(w: Words, v: Words, ring: seq<int>)
    requires Linked(w, ring)
    requires forall r :: r in ring && r + 4 in w && r + 8 in w ==>
      r + 4 in v && v[r + 4] == w[r + 4] && r + 8 in v && v[r + 8] == w[r + 8]
    ensures Linked(v, ring)
  {
    forall j | 0 <= j < |ring|
      ensures LinkedAt(v, ring, j)
    {
      assert LinkedAt(w, ring, j) && ring[j] in ring;
    }
  }

  // What an insertion needs to know about the ends of the ring.
  lemma RingEnds(w: Words, ring: seq<int>, h: int, lo: int, hi: int)
    requires Linked(w, ring) && Placed([h] + ring, lo, hi) && lo > 0
    ensures PlacedAt(h, lo, hi)
    ensures ring != [] ==> PlacedAt(ring[0], lo, hi) && PlacedAt(ring[|ring| - 1], lo, hi)
    ensures ring != [] ==> ring[0] + 4 in w && w[ring[0] + 4] == ring[|ring| - 1]
    ensures forall r :: r in [h] + ring ==> r % 8 == 4
  {
    assert h in [h] + ring;
    if ring != [] {
      assert LinkedAt(w, ring, 0);
      assert ring[0] in [h] + ring && ring[|ring| - 1] in [h] + ring;
    }
  }

  lemma InsertTouchesLinks(w: Words, ring: seq<int>, h: int)
    requires ring != []
    ensures SameButLinks(w, InsertWrites(w, ring[0], h, ring[|ring| - 1]), [h] + ring)
  {
    assert ([h] + ring)[0] == h && ([h] + ring)[1] == ring[0] && ([h] + ring)[|ring|] == ring[|ring| - 1];
  }

  lemma SingletonRing(w: Words, h: int)
    ensures Linked(w[h + 4 := h][h + 8 := h], [h]) && SameButLinks(w, w[h + 4 := h][h + 8 := h], [h])
  {
    var v := w[h + 4 := h][h + 8 := h];
    assert LinkedAt(v, [h], 0) && [h][0] == h;
  }

  // Everything about taking `h` out of the ring.
  lemma RingDelete(w: Words, ring: seq<int>, h: int, lo: int, hi: int) returns (j: nat)
    requires Linked(w, ring) && Distinct(ring) && Placed(ring, lo, hi) && h in ring
    ensures j < |ring| && ring[j] == h && LinkedAt(w, ring, j)
    ensures Distinct(Without(ring, h)) && Placed(Without(ring, h), lo, hi) && |Without(ring, h)| == |ring| - 1
    ensures PlacedAt(h, lo, hi) && PlacedAt(Before(ring, j), lo, hi) && PlacedAt(After(ring, j), lo, hi)
    ensures Linked(DeleteWrites(w, Before(ring, j), After(ring, j)), Without(ring, h))
    ensures |ring| >= 2 ==>
      && SameButLinks(w, DeleteWrites(w, Before(ring, j), After(ring, j)), Without(ring, h))
      && Without(ring, h)[0] == (if h == ring[0] then After(ring, j) else ring[0])
      && (h == ring[0] <==> j == 0)
  {
    j :| 0 <= j < |ring| && ring[j] == h;
    WithoutMembers(ring, h);
    WithoutAt(ring, j);
    var p, q := PrevIndex(ring, j), NextIndex(ring, j);
    assert ring[p] in ring && ring[q] in ring;
    DeleteLinks(w, ring, j);
    if |ring| >= 2 {
      assert ring[p] in Without(ring, h) && ring[q] in Without(ring, h);
    }
  }

  // The tag writes of a split, and nothing else.
  ghost predicate SplitWritten(w: Words, v: Words, b: Block, request: int) {
    && Tag(v, b.start, request, true) && Tag(v, b.start + request - 4, request, true)
    && Tag(v, b.start + request, b.size - request, false) && Tag(v, b.End() - 4, b.size - request, false)
    && (forall a :: a in w ==>
          a in v &&
          (a !in {b.start, b.start + request - 4, b.start + request, b.End() - 4} ==> v[a] == w[a]))
  }

  // The merged block is tagged free at both ends; nothing outside it changes.
  ghost predicate Coalesced(w: Words, v: Words, m: Block) {
    Vacant(m) && Tagged(v, m) && SameOutside(w, v, m.start, m.End())
  }

  // After the tag writes of a split the new tiles are in memory and the ring,
  // still holding the split block's header, is untouched.
  lemma SplitInMemory(w: Words, v: Words, l: Layout, lo: int, hi: int, i: nat, ask: Ask)
    requires WellFormed(l, lo, hi) && Represents(w, l, lo, hi) && Legal(ask) && ask.Bytes?
    requires i < |l.blocks| && Fits(l.blocks[i], ask)
    requires SplitWritten(w, v, l.blocks[i], RequestSize(ask, l.blocks[i].start))
    ensures Sentinels(v, lo, hi) && AllTagged(v, Split(l, i, ask).blocks) && AllBackPointers(v, Split(l, i, ask).blocks)
    ensures Linked(v, l.ring)
    ensures KeepsPayloads(w, v, l.blocks)
  {
    var b, pieces := l.blocks[i], SplitPieces(l.blocks[i], ask);
    TileAt(l.blocks, lo, hi, i);
    RequestIsRoomy(ask, b.start);
    assert SameOutside(w, v, b.start, b.End()) by { hide RequestSize; }
    PiecesInMemory(w, v, b, ask);
    RegionRewrite(w, v, l.blocks, lo, hi, i, i + 1, pieces);
    SplitKeepsLinks(w, v, l, lo, hi, i, RequestSize(ask, b.start));
    hide *;
    VacantAside(w, v, l.blocks, i);
  }

  lemma PiecesInMemory(w: Words, v: Words, b: Block, ask: Ask)
    requires b.Cut() && Legal(ask) && ask.Bytes? && SplitWritten(w, v, b, RequestSize(ask, b.start))
    ensures AllTagged(v, SplitPieces(b, ask)) && AllBackPointers(v, SplitPieces(b, ask))
  {
    hide RequestSize;
  }

  lemma SplitKeepsLinks(w: Words, v: Words, l: Layout, lo: int, hi: int, i: nat, request: int)
    requires WellFormed(l, lo, hi) && Linked(w, l.ring)
    requires i < |l.blocks| && request % 8 == 0 && MIN_BLOCKSIZE <= request <= l.blocks[i].size - MIN_BLOCKSIZE
    requires SplitWritten(w, v, l.blocks[i], request)
    ensures Linked(v, l.ring)
  {
    var b := l.blocks[i];
    forall r | r in l.ring && r + 4 in w && r + 8 in w
      ensures r + 4 in v && v[r + 4] == w[r + 4] && r + 8 in v && v[r + 8] == w[r + 8]
    {
      var k :| 0 <= k < |l.blocks| && l.blocks[k].start == r && Vacant(l.blocks[k]);
      if k < i { assert l.blocks[k].End() <= b.start; }
      if i < k { assert b.End() <= l.blocks[k].start; }
    }
    LinksKept(w, v, l.ring);
  }

  // A block that is free has no payload to keep.
  lemma VacantAside(w: Words, v: Words, blocks: seq<Block>, i: nat)
    requires i < |blocks| && Vacant(blocks[i]) && KeepsPayloads(w, v, blocks[..i] + blocks[i + 1..])
    ensures KeepsPayloads(w, v, blocks)
  {
    var kept := blocks[..i] + blocks[i + 1..];
    forall k, a | 0 <= k < |blocks| && !Vacant(blocks[k]) && a in w && InPayload(blocks[k], a)
      ensures a in v && v[a] == w[a]
    {
      assert kept[if k < i then k else k - 1] == blocks[k];
    }
  }

  lemma MembersPlaced(l: Layout, lo: int, hi: int)
    requires WellFormed(l, lo, hi)
    ensures Placed(l.ring, lo, hi)
    ensures forall r :: r in l.ring ==> FreeHeader(l.blocks, r)
  {
    forall r | r in l.ring
      ensures PlacedAt(r, lo, hi)
    {
      var i :| 0 <= i < |l.blocks| && l.blocks[i].start == r && Vacant(l.blocks[i]);
      TileAt(l.blocks, lo, hi, i);
    }
  }

  lemma KeepsPayloadsSelf(w: Words, blocks: seq<Block>)
    ensures KeepsPayloads(w, w, blocks)
  {
  }

  lemma KeepsPayloadsTwice(u: Words, v: Words, w: Words, blocks: seq<Block>)
    requires KeepsPayloads(u, v, blocks) && KeepsPayloads(v, w, blocks)
    ensures KeepsPayloads(u, w, blocks)
  {
  }

  // A block that is in use before and after a split keeps its payload.
  lemma KeptBySplit(u: Words, v: Words, l: Layout, i: nat, ask: Ask)
    requires i < |l.blocks| && Vacant(l.blocks[i]) && KeepsPayloads(u, v, Split(l, i, ask).blocks)
    ensures KeepsPayloads(u, v, l.blocks)
  {
    var pieces := SplitPieces(l.blocks[i], ask);
    SpliceIndex(l.blocks, i, i + 1, pieces);
    var s := Split(l, i, ask).blocks;
    forall k, a | 0 <= k < |l.blocks| && !Vacant(l.blocks[k]) && a in u && InPayload(l.blocks[k], a)
      ensures a in v && v[a] == u[a]
    {
      assert s[if k < i then k else k + 1] == l.blocks[k];
    }
  }

  // Where the two pieces of a split are.
  lemma SplitAt(l: Layout, i: nat, ask: Ask)
    requires i < |l.blocks|
    ensures |Split(l, i, ask).blocks| == |l.blocks| + 1
    ensures Split(l, i, ask).blocks[i] == SplitPieces(l.blocks[i], ask)[0]
    ensures Split(l, i, ask).blocks[i + 1] == SplitPieces(l.blocks[i], ask)[1]
  {
    SpliceIndex(l.blocks, i, i + 1, SplitPieces(l.blocks[i], ask));
  }

  lemma ConsMember(h: int, ring: seq<int>, r: int)
    requires r in ring
    ensures r in [h] + ring
  {
    var j :| 0 <= j < |ring| && ring[j] == r;
    assert ([h] + ring)[j + 1] == r;
  }

  // What relinking the ring after a split needs to know.
  lemma SplitForRing(l: Layout, lo: int, hi: int, i: nat, ask: Ask)
    requires WellFormed(l, lo, hi) && Legal(ask) && i < |l.blocks| && Fits(l.blocks[i], ask)
    ensures
      var h, l' := l.blocks[i].start, Split(l, i, ask);
      var rest := h + RequestSize(ask, h);
      && WellFormed(l', lo, hi) && Tiled(l'.blocks, lo, hi) && AllRoomy(l'.blocks)
      && PlacedAt(h, lo, hi) && PlacedAt(rest, lo, hi)
      && RequestSize(ask, h) < l.blocks[i].size
      && h in l.ring && l'.ring == [rest] + Without(l.ring, h)
      && Distinct(l'.ring) && Placed(l'.ring, lo, hi) && MIN_BLOCKSIZE * |l.ring| <= hi - lo
      && (forall r :: r in l'.ring ==> FreeHeader(l'.blocks, r))
      && (forall r :: r in Without(l.ring, h) ==> FreeHeader(l'.blocks, r))
  {
    var h, l' := l.blocks[i].start, Split(l, i, ask);
    assert FreeHeader(l.blocks, h);
    SplitKeepsOrder(l, lo, hi, i, ask);
    RingIsShort(l, lo, hi);
    MembersPlaced(l, lo, hi);
    MembersPlaced(l', lo, hi);
    var rest := h + RequestSize(ask, h);
    assert l'.ring[0] == rest && PlacedAt(rest, lo, hi);
    assert l'.ring == [rest] + Without(l.ring, h);
    hide FreeHeader, Tiled, AllRoomy, Split, Placed, RequestSize;
    forall r | r in Without(l.ring, h)
      ensures FreeHeader(l'.blocks, r)
    {
      ConsMember(rest, Without(l.ring, h), r);
    }
  }

  // The header tag of the held piece, as get_nextheader reads it.
  lemma HeldPieceTag(w: Words, l: Layout, i: nat, ask: Ask)
    requires i < |l.blocks| && AllTagged(w, Split(l, i, ask).blocks)
    ensures
      var h := l.blocks[i].start;
      Sized(w, h, RequestSize(ask, h))
  {
    SplitAt(l, i, ask);
    var b := Split(l, i, ask).blocks[i];
    assert Tagged(w, b);
  }

  // Reading ring position k: the block there is free, tagged and aligned, and
  // its next link leads on.
  lemma RingPosition(w: Words, l: Layout, lo: int, hi: int, k: nat) returns (i: nat)
    requires WellFormed(l, lo, hi) && Represents(w, l, lo, hi) && k < |l.ring|
    ensures i < |l.blocks| && l.blocks[i].start == l.ring[k] && Vacant(l.blocks[i])
    ensures IndexOf(l.blocks, l.ring[k]) == i
    ensures Tagged(w, l.blocks[i]) && l.blocks[i].Cut() && MIN_BLOCKSIZE <= l.blocks[i].size
    ensures lo <= l.blocks[i].start && l.blocks[i].End() <= hi && PlacedAt(l.ring[k], lo, hi)
    ensures l.ring[k] + 8 in w && w[l.ring[k] + 8] == After(l.ring, k)
  {
    assert l.ring[k] in l.ring && LinkedAt(w, l.ring, k);
    i :| 0 <= i < |l.blocks| && l.blocks[i].start == l.ring[k] && Vacant(l.blocks[i]);
    TileAt(l.blocks, lo, hi, i);
    IndexIsUnique(l.blocks, lo, hi, i);
  }

  // Memory with the back-pointer of a moved-up descriptor in place.
  function WithBackPointer(w: Words, held: Block): Words {
    if held.Pointer() == held.Payload() then w else w[held.Pointer() - 4 := held.Payload()]
  }

  lemma BackPointerWritten(w: Words, plain: Block, held: Block)
    requires Tagged(w, plain) && plain.start == held.start && plain.size == held.size
    requires !Vacant(plain) && !Vacant(held) && held.Roomy() && held.Cut()
    ensures AllTagged(WithBackPointer(w, held), [held]) && AllBackPointers(WithBackPointer(w, held), [held])
    ensures SameOutside(w, WithBackPointer(w, held), held.start, held.End())
    ensures held.Pointer() != held.Payload() ==> InPayload(plain, held.Pointer() - 4)
  {
    if held.Pointer() != held.Payload() { PointerInPayload(held); }
  }

  lemma PayloadWriteKeepsLinks(w: Words, l: Layout, lo: int, hi: int, i: nat, a: int, x: int)
    requires WellFormed(l, lo, hi) && Linked(w, l.ring)
    requires i < |l.blocks| && !Vacant(l.blocks[i]) && InPayload(l.blocks[i], a)
    ensures Linked(w[a := x], l.ring)
  {
    MembersPlaced(l, lo, hi);
    forall r | r in l.ring && r + 4 in w && r + 8 in w
      ensures r + 4 != a && r + 8 != a
    {
      LinksMissTags(l.blocks, lo, hi, r, i);
    }
    LinksKept(w, w[a := x], l.ring);
  }

  lemma PlainForDescriptor(start: int)
    requires start % 8 == 4
    ensures
      var r := RequestSize(Descriptor, start);
      r > BOUNDARY_SIZE && RequestSize(Bytes(r - BOUNDARY_SIZE), start) == r && r % 8 == 0
  {
    hide AlignedPayload, AlignUp, RoundUp8;
    DescriptorSize(start + 4);
    var r := RequestSize(Descriptor, start);
    RoundUpToEight(r - 8);
    EightApart(RoundUp8(r - 8), r - 8);
  }

  lemma EightApart(x: int, y: int)
    requires x % 8 == 0 && y % 8 == 0 && y <= x < y + 8
    ensures x == y
  {
  }

  // The request that cuts the same block as a descriptor at `start` does.
  function PlainAsk(start: int): Ask { Bytes(RequestSize(Descriptor, start) - BOUNDARY_SIZE) }

  // Cutting for a descriptor is cutting for its block's payload, then storing
  // the back-pointer inside the new block.
  lemma DescriptorInMemory(w: Words, l: Layout, lo: int, hi: int, i: nat)
    requires WellFormed(l, lo, hi) && i < |l.blocks| && Fits(l.blocks[i], Descriptor)
    requires Represents(w, Split(l, i, PlainAsk(l.blocks[i].start)), lo, hi)
    ensures
      var v := WithBackPointer(w, SplitPieces(l.blocks[i], Descriptor)[0]);
      Represents(v, Split(l, i, Descriptor), lo, hi) && KeepsPayloads(w, v, l.blocks)
      && Split(l, i, Descriptor).ring == Split(l, i, PlainAsk(l.blocks[i].start)).ring
  {
    var start := l.blocks[i].start;
    var l1, held := Split(l, i, PlainAsk(start)), SplitPieces(l.blocks[i], Descriptor)[0];
    var v := WithBackPointer(w, held);
    DescriptorBlock(w, l, lo, hi, i);
    hide RequestSize, Tiled, AllRoomy, NoFreeNeighbours, RingMatches, Sentinels, AllTagged, AllBackPointers, Linked;
    hide KeepsPayloads, Tagged, SameOutside, AlignedPayload, Without, Splice, Split, SplitPieces, PlainAsk, Fits;
    RegionRewrite(w, v, l1.blocks, lo, hi, i, i + 1, [held]);
    DescriptorSplice(w, v, l, i);
  }

  // The block that is cut for a descriptor, before and after.
  lemma DescriptorBlock(w: Words, l: Layout, lo: int, hi: int, i: nat)
    requires WellFormed(l, lo, hi) && i < |l.blocks| && Fits(l.blocks[i], Descriptor)
    requires Represents(w, Split(l, i, PlainAsk(l.blocks[i].start)), lo, hi)
    ensures
      var l1, held := Split(l, i, PlainAsk(l.blocks[i].start)), SplitPieces(l.blocks[i], Descriptor)[0];
      var v := WithBackPointer(w, held);
      && WellFormed(l1, lo, hi) && i < |l1.blocks| && l.blocks[i].start % 8 == 4 && Vacant(l.blocks[i])
      && SameOutside(w, v, l1.blocks[i].start, l1.blocks[i].End())
      && AllTagged(v, [held]) && AllBackPointers(v, [held]) && Linked(v, l1.ring)
  {
    var start := l.blocks[i].start;
    var l1, held := Split(l, i, PlainAsk(start)), SplitPieces(l.blocks[i], Descriptor)[0];
    TileAt(l.blocks, lo, hi, i);
    PlainForDescriptor(start);
    RequestIsRoomy(Descriptor, start);
    SplitKeepsOrder(l, lo, hi, i, PlainAsk(start));
    SplitAt(l, i, PlainAsk(start));
    assert Tagged(w, l1.blocks[i]) && Linked(w, l1.ring);
    assert held.start == l1.blocks[i].start && held.size == l1.blocks[i].size && held.Cut() && held.Roomy();
    assert !Vacant(l1.blocks[i]) && !Vacant(held);
    hide RequestSize, WellFormed, Represents, Tagged, SameOutside, AlignedPayload, Splice, Split, SplitPieces, Fits, Block.Cut, Block.Roomy;
    HeldWritten(w, l1, lo, hi, i, held);
  }

  lemma HeldWritten(w: Words, l1: Layout, lo: int, hi: int, i: nat, held: Block)
    requires WellFormed(l1, lo, hi) && i < |l1.blocks| && Tagged(w, l1.blocks[i]) && Linked(w, l1.ring)
    requires held.start == l1.blocks[i].start && held.size == l1.blocks[i].size && held.Cut() && held.Roomy()
    requires !Vacant(l1.blocks[i]) && !Vacant(held)
    ensures
      var v := WithBackPointer(w, held);
      && SameOutside(w, v, l1.blocks[i].start, l1.blocks[i].End())
      && AllTagged(v, [held]) && AllBackPointers(v, [held]) && Linked(v, l1.ring)
  {
    BackPointerWritten(w, l1.blocks[i], held);
    hide WellFormed, AllTagged, AllBackPointers, Linked, Tagged, SameOutside, AlignedPayload, Block.Cut, Block.Roomy, InPayload;
    if held.Pointer() != held.Payload() {
      PayloadWriteKeepsLinks(w, l1, lo, hi, i, held.Pointer() - 4, held.Payload());
    }
  }

  lemma DescriptorSplice(w: Words, v: Words, l: Layout, i: nat)
    requires i < |l.blocks| && Vacant(l.blocks[i]) && l.blocks[i].start % 8 == 4
    ensures
      var l1 := Split(l, i, PlainAsk(l.blocks[i].start));
      var held := SplitPieces(l.blocks[i], Descriptor)[0];
      && Splice(l1.blocks, i, i + 1, [held]) == Split(l, i, Descriptor).blocks
      && l1.ring == Split(l, i, Descriptor).ring
      && (KeepsPayloads(w, v, l1.blocks[..i] + l1.blocks[i + 1..]) ==> KeepsPayloads(w, v, l.blocks))
  {
    PlainForDescriptor(l.blocks[i].start);
    hide RequestSize, InPayload, Without, Splice;
    var b := l.blocks[i];
    var p1, p2 := SplitPieces(b, PlainAsk(b.start)), SplitPieces(b, Descriptor);
    assert p1[1] == p2[1] && p1[0].start == p2[0].start && p1 == [p1[0], p1[1]] && p2 == [p2[0], p1[1]];
    SplicePair(l.blocks, i, p1[0], p1[1], p2[0]);
    var kept := l.blocks[..i] + [p1[1]] + l.blocks[i + 1..];
    if KeepsPayloads(w, v, kept) { KeepsWithVacant(w, v, l.blocks, i, p1[1]); }
  }

  // Which vacant block stands at i does not matter.
  lemma KeepsWithVacant(w: Words, v: Words, blocks: seq<Block>, i: nat, y: Block)
    requires i < |blocks| && Vacant(blocks[i]) && KeepsPayloads(w, v, blocks[..i] + [y] + blocks[i + 1..])
    ensures KeepsPayloads(w, v, blocks)
  {
    hide InPayload;
    var kept := blocks[..i] + [y] + blocks[i + 1..];
    forall k, a | 0 <= k < |blocks| && !Vacant(blocks[k]) && a in w && InPayload(blocks[k], a)
      ensures a in v && v[a] == w[a]
    {
      assert kept[k] == blocks[k];
    }
  }

  lemma DescriptorFits(l: Layout, lo: int, hi: int, i: nat)
    requires WellFormed(l, lo, hi) && i < |l.blocks|
    ensures
      var h := l.blocks[i].start;
      && IndexOf(l.blocks, h) == i && lo <= h
      && (FitsAt(l.blocks, h, PlainAsk(h)) <==> FitsAt(l.blocks, h, Descriptor))
      && (FitsAt(l.blocks, h, Descriptor) ==>
            && Fits(l.blocks[i], Descriptor) && WellFormed(Split(l, i, Descriptor), lo, hi)
            && AlignedPayload(h + 4) % 8 == 0 && h + 4 <= AlignedPayload(h + 4)
            && (AlignedPayload(h + 4) != h + 4 ==> AlignedPayload(h + 4) >= h + 12)
            && AlignedPayload(h + 4) + LLI_SIZE <= hi)
  {
    hide AlignedPayload, RequestSize, Tiled, AllRoomy, NoFreeNeighbours, RingMatches, Split;
    var h := l.blocks[i].start;
    TileAt(l.blocks, lo, hi, i);
    IndexIsUnique(l.blocks, lo, hi, i);
    PlainForDescriptor(h);
    if FitsAt(l.blocks, h, Descriptor) {
      SplitKeepsOrder(l, lo, hi, i, Descriptor);
      DescriptorSize(h + 4);
      AlignedPayloadGap(h + 4);
    }
  }

  // ---------------------------------------------------------------- release

  // A merge of the tiles around a held block, once the free neighbours have
  // left the ring.
  lemma ReleaseInMemory(w: Words, v: Words, l: Layout, lo: int, hi: int, i: nat, kept: seq<int>)
    requires WellFormed(l, lo, hi) && i < |l.blocks| && !Vacant(l.blocks[i])
    requires Sentinels(w, lo, hi) && AllTagged(w, l.blocks) && AllBackPointers(w, l.blocks) && Linked(w, kept)
    requires kept == WithoutAll(l.ring, Absorbed(l.blocks, i))
    requires Coalesced(w, v, Merged(l.blocks, i))
    ensures
      var l' := Release(l, i);
      && Sentinels(v, lo, hi) && AllTagged(v, l'.blocks) && AllBackPointers(v, l'.blocks)
      && Linked(v, kept) && KeepsPayloads(w, v, l'.blocks)
  {
    hide *;
    var m, from, past := Merged(l.blocks, i), MergeFrom(l.blocks, i), MergeTo(l.blocks, i);
    MergedEnds(l, w, v, i);
    ReleaseParts(l, lo, hi, i);
    RegionRewrite(w, v, l.blocks, lo, hi, from, past, [m]);
    AfterRelease(w, v, l, i);
    KeptOutside(l, lo, hi, i, kept);
    OutsideKeepsLinks(w, v, kept, m);
  }

  lemma ReleaseParts(l: Layout, lo: int, hi: int, i: nat)
    requires WellFormed(l, lo, hi) && i < |l.blocks|
    ensures
      var from, past := MergeFrom(l.blocks, i), MergeTo(l.blocks, i);
      Tiled(l.blocks, lo, hi) && AllRoomy(l.blocks) && Release(l, i).blocks == Splice(l.blocks, from, past, [Merged(l.blocks, i)])
  {
  }

  lemma MergedEnds(l: Layout, w: Words, v: Words, i: nat)
    requires i < |l.blocks| && Coalesced(w, v, Merged(l.blocks, i))
    ensures
      var m, from, past := Merged(l.blocks, i), MergeFrom(l.blocks, i), MergeTo(l.blocks, i);
      && l.blocks[from].start == m.start && l.blocks[past - 1].End() == m.End() && SameOutside(w, v, m.start, m.End())
      && AllTagged(v, [m]) && AllBackPointers(v, [m])
  {
    hide Tagged, SameOutside;
  }

  lemma OutsideKeepsLinks(w: Words, v: Words, ring: seq<int>, m: Block)
    requires Linked(w, ring) && SameOutside(w, v, m.start, m.End())
    requires forall r :: r in ring ==> r + MIN_BLOCKSIZE <= m.start || m.End() <= r
    ensures Linked(v, ring)
  {
    forall r | r in ring && r + 4 in w && r + 8 in w
      ensures r + 4 in v && v[r + 4] == w[r + 4] && r + 8 in v && v[r + 8] == w[r + 8]
    {
    }
    LinksKept(w, v, ring);
  }

  // A ring member that is not absorbed lies outside the merged bytes.
  lemma KeptOutside(l: Layout, lo: int, hi: int, i: nat, kept: seq<int>)
    requires WellFormed(l, lo, hi) && i < |l.blocks| && !Vacant(l.blocks[i])
    requires kept == WithoutAll(l.ring, Absorbed(l.blocks, i))
    ensures
      var m := Merged(l.blocks, i);
      && Placed(kept, lo, hi) && Distinct(kept)
      && (forall r :: r in kept ==> r + MIN_BLOCKSIZE <= m.start || m.End() <= r)
      && (forall r :: r in kept ==> FreeHeader(l.blocks, r))
  {
    var m, from, past := Merged(l.blocks, i), MergeFrom(l.blocks, i), MergeTo(l.blocks, i);
    WithoutAllMembers(l.ring, Absorbed(l.blocks, i));
    MembersPlaced(l, lo, hi);
    forall r | r in kept
      ensures r + MIN_BLOCKSIZE <= m.start || m.End() <= r
    {
      AbsorbedHeaders(l, lo, hi, i, r);
      var k :| 0 <= k < |l.blocks| && l.blocks[k].start == r && Vacant(l.blocks[k]);
      InSlice(l.blocks, from, past, k);
      if k < from { assert l.blocks[k].End() <= l.blocks[from].start; }
      if past <= k { assert l.blocks[past - 1].End() <= l.blocks[k].start; }
    }
  }

  lemma InSlice(blocks: seq<Block>, from: nat, past: nat, k: nat)
    requires from <= past <= |blocks| && k < |blocks| && Vacant(blocks[k])
    ensures from <= k < past ==> FreeHeader(blocks[from..past], blocks[k].start)
  {
    if from <= k < past { assert blocks[from..past][k - from] == blocks[k]; }
  }

  lemma AfterRelease(w: Words, v: Words, l: Layout, i: nat)
    requires i < |l.blocks|
    requires KeepsPayloads(w, v, l.blocks[..MergeFrom(l.blocks, i)] + l.blocks[MergeTo(l.blocks, i)..])
    ensures KeepsPayloads(w, v, Release(l, i).blocks)
  {
    var from, past := MergeFrom(l.blocks, i), MergeTo(l.blocks, i);
    var outside, s := l.blocks[..from] + l.blocks[past..], Release(l, i).blocks;
    SpliceIndex(l.blocks, from, past, [Merged(l.blocks, i)]);
    forall k, a | 0 <= k < |s| && !Vacant(s[k]) && a in w && InPayload(s[k], a)
      ensures a in v && v[a] == w[a]
    {
      assert outside[if k < from then k else k - 1] == s[k];
    }
  }

  // Every block in use after a release was in use, at its place, before it.
  lemma ReleaseKeepsOthers(w: Words, v: Words, l: Layout, i: nat)
    requires i < |l.blocks| && KeepsPayloads(w, v, l.blocks)
    ensures KeepsPayloads(w, v, Release(l, i).blocks)
  {
    var from, past := MergeFrom(l.blocks, i), MergeTo(l.blocks, i);
    var s := Release(l, i).blocks;
    SpliceIndex(l.blocks, from, past, [Merged(l.blocks, i)]);
    forall k, a | 0 <= k < |s| && !Vacant(s[k]) && a in w && InPayload(s[k], a)
      ensures a in v && v[a] == w[a]
    {
      assert l.blocks[if k < from then k else k - 1 + past - from] == s[k];
    }
  }

  // What the header and footer words around a held block say about its
  // neighbours: the tags free reads.
  lemma NeighbourTags(w: Words, l: Layout, lo: int, hi: int, i: nat) returns (prev: int)
    requires WellFormed(l, lo, hi) && i < |l.blocks| && !Vacant(l.blocks[i])
    requires Sentinels(w, lo, hi) && AllTagged(w, l.blocks)
    ensures
      var b := l.blocks[i];
      && Tagged(w, b) && b.Cut() && MIN_BLOCKSIZE <= b.size && lo <= b.start && b.End() <= hi
      && Sized(w, b.start, b.size) && UsedIs(w, b.start, true)
      && UsedIs(w, b.End(), MergeTo(l.blocks, i) == i + 1)
      && Sized(w, b.start - 4, b.start - prev) && lo - 8 <= prev <= b.start - 8
      && UsedIs(w, prev, MergeFrom(l.blocks, i) == i)
      && (MergeFrom(l.blocks, i) < i ==> prev == l.blocks[i - 1].start)
  {
    TileAt(l.blocks, lo, hi, i);
    assert Tagged(w, l.blocks[i]);
    if i + 1 < |l.blocks| { assert Tagged(w, l.blocks[i + 1]) && l.blocks[i].End() == l.blocks[i + 1].start; }
    if i > 0 {
      TileAt(l.blocks, lo, hi, i - 1);
      assert Tagged(w, l.blocks[i - 1]) && l.blocks[i - 1].End() == l.blocks[i].start;
      prev := l.blocks[i - 1].start;
    } else {
      prev := lo - 8;
    }
  }

  // `p` is the payload address of a block in use.
  ghost predicate HeldPayload(l: Layout, p: int) {
    var i := IndexOf(l.blocks, p - 4);
    i < |l.blocks| && !Vacant(l.blocks[i])
  }

  // Which free neighbours leave the ring, in the order free removes them.
  lemma AbsorbedNeighbours(l: Layout, lo: int, hi: int, i: nat)
    requires WellFormed(l, lo, hi) && i < |l.blocks| && !Vacant(l.blocks[i])
    ensures
      var next, prev := MergeTo(l.blocks, i) > i + 1, MergeFrom(l.blocks, i) < i;
      var b, m := l.blocks[i], Merged(l.blocks, i);
      && b.Cut() && b.size >= MIN_BLOCKSIZE && lo <= b.start && b.End() <= hi
      && (next ==>
            && b.End() == l.blocks[i + 1].start && l.blocks[i + 1].start in l.ring
            && l.blocks[i + 1].Cut() && l.blocks[i + 1].size >= MIN_BLOCKSIZE && l.blocks[i + 1].End() <= hi)
      && (prev ==>
            && l.blocks[i - 1].End() == b.start && l.blocks[i - 1].start in l.ring
            && l.blocks[i - 1].Cut() && l.blocks[i - 1].size >= MIN_BLOCKSIZE && lo <= l.blocks[i - 1].start)
      && (next && prev ==> l.blocks[i - 1].start in Without(l.ring, l.blocks[i + 1].start))
      && m == Block(if prev then l.blocks[i - 1].start else b.start,
                    (if prev then l.blocks[i - 1].size else 0) + b.size + (if next then l.blocks[i + 1].size else 0),
                    Free)
      && WithoutAll(l.ring, Absorbed(l.blocks, i)) ==
           (if next && prev then Without(Without(l.ring, l.blocks[i + 1].start), l.blocks[i - 1].start)
            else if next then Without(l.ring, l.blocks[i + 1].start)
            else if prev then Without(l.ring, l.blocks[i - 1].start)
            else l.ring)
  {
    TileAt(l.blocks, lo, hi, i);
    NextNeighbour(l, lo, hi, i);
    PrevNeighbour(l, lo, hi, i);
    MergedParts(l, lo, hi, i);
    AbsorbedRing(l, lo, hi, i);
    hide WellFormed, Without, WithoutAll, Absorbed, Merged, Block.Cut;
  }

  lemma MergedParts(l: Layout, lo: int, hi: int, i: nat)
    requires WellFormed(l, lo, hi) && i < |l.blocks|
    ensures
      var next, prev := MergeTo(l.blocks, i) > i + 1, MergeFrom(l.blocks, i) < i;
      Merged(l.blocks, i) ==
        Block(if prev then l.blocks[i - 1].start else l.blocks[i].start,
              (if prev then l.blocks[i - 1].size else 0) + l.blocks[i].size + (if next then l.blocks[i + 1].size else 0),
              Free)
  {
    NextNeighbour(l, lo, hi, i);
    PrevNeighbour(l, lo, hi, i);
    hide WellFormed, Block.Cut;
  }

  lemma AbsorbedRing(l: Layout, lo: int, hi: int, i: nat)
    requires WellFormed(l, lo, hi) && i < |l.blocks|
    ensures
      var next, prev := MergeTo(l.blocks, i) > i + 1, MergeFrom(l.blocks, i) < i;
      && (next && prev ==> l.blocks[i - 1].start in Without(l.ring, l.blocks[i + 1].start))
      && WithoutAll(l.ring, Absorbed(l.blocks, i)) ==
           (if next && prev then Without(Without(l.ring, l.blocks[i + 1].start), l.blocks[i - 1].start)
            else if next then Without(l.ring, l.blocks[i + 1].start)
            else if prev then Without(l.ring, l.blocks[i - 1].start)
            else l.ring)
  {
    NextNeighbour(l, lo, hi, i);
    PrevNeighbour(l, lo, hi, i);
    TileAt(l.blocks, lo, hi, i);
    WithoutMembers(l.ring, if i + 1 < |l.blocks| then l.blocks[i + 1].start else 0);
    hide WellFormed, Without, WithoutAll, Block.Cut;
    WithoutAllUpToTwo(l.ring, Absorbed(l.blocks, i));
  }

  lemma NextNeighbour(l: Layout, lo: int, hi: int, i: nat)
    requires WellFormed(l, lo, hi) && i < |l.blocks|
    ensures MergeTo(l.blocks, i) > i + 1 ==>
      && l.blocks[i].End() == l.blocks[i + 1].start && l.blocks[i + 1].start in l.ring && Vacant(l.blocks[i + 1])
      && l.blocks[i + 1].Cut() && l.blocks[i + 1].size >= MIN_BLOCKSIZE && l.blocks[i + 1].End() <= hi
  {
    if MergeTo(l.blocks, i) > i + 1 {
      TileAt(l.blocks, lo, hi, i + 1);
      assert FreeHeader(l.blocks, l.blocks[i + 1].start);
    }
  }

  lemma PrevNeighbour(l: Layout, lo: int, hi: int, i: nat)
    requires WellFormed(l, lo, hi) && i < |l.blocks|
    ensures MergeFrom(l.blocks, i) < i ==>
      && l.blocks[i - 1].End() == l.blocks[i].start && l.blocks[i - 1].start in l.ring && Vacant(l.blocks[i - 1])
      && l.blocks[i - 1].Cut() && l.blocks[i - 1].size >= MIN_BLOCKSIZE && lo <= l.blocks[i - 1].start
      && l.blocks[i - 1].start < l.blocks[i].End()
  {
    if MergeFrom(l.blocks, i) < i {
      TileAt(l.blocks, lo, hi, i - 1);
      TileAt(l.blocks, lo, hi, i);
      assert FreeHeader(l.blocks, l.blocks[i - 1].start);
      assert l.blocks[i - 1].End() == l.blocks[i - 1 + 1].start;
    }
  }

  lemma WithoutAllUpToTwo(ring: seq<int>, hs: seq<int>)
    requires |hs| <= 2
    ensures WithoutAll(ring, hs) ==
      (if |hs| == 0 then ring else if |hs| == 1 then Without(ring, hs[0]) else Without(Without(ring, hs[0]), hs[1]))
  {
    if |hs| == 2 {
      assert hs[1..][1..] == [];
      assert WithoutAll(Without(ring, hs[0]), hs[1..]) == WithoutAll(Without(Without(ring, hs[0]), hs[1]), hs[1..][1..]);
    }
  }

  // What inserting the merged block at the head of the ring needs to know.
  lemma ReleaseForRing(l: Layout, lo: int, hi: int, i: nat)
    requires WellFormed(l, lo, hi) && i < |l.blocks| && !Vacant(l.blocks[i])
    ensures
      var m, l' := Merged(l.blocks, i), Release(l, i);
      && WellFormed(l', lo, hi) && Tiled(l'.blocks, lo, hi) && AllRoomy(l'.blocks)
      && PlacedAt(m.start, lo, hi)
      && l'.ring == [m.start] + WithoutAll(l.ring, Absorbed(l.blocks, i))
      && Distinct(l'.ring) && Placed(l'.ring, lo, hi) && MIN_BLOCKSIZE * |l'.ring| <= hi - lo
      && (forall r :: r in l'.ring ==> FreeHeader(l'.blocks, r))
  {
    var l' := Release(l, i);
    ReleaseKeepsOrder(l, lo, hi, i);
    RingIsShort(l', lo, hi);
    MembersPlaced(l', lo, hi);
    assert l'.ring[0] == Merged(l.blocks, i).start;
  }

  lemma HeaderSize(w: Words, blocks: seq<Block>, k: nat)
    requires AllTagged(w, blocks) && k < |blocks|
    ensures Sized(w, blocks[k].start, blocks[k].size)
  {
    assert Tagged(w, blocks[k]);
  }

  // From memory before free, through memory after the ring deletions, to
  // memory after the merge.
  lemma MergeDone(u: Words, w: Words, v: Words, l: Layout, lo: int, hi: int, i: nat, kept: seq<int>)
    requires WellFormed(l, lo, hi) && i < |l.blocks| && !Vacant(l.blocks[i])
    requires Sentinels(w, lo, hi) && AllTagged(w, l.blocks) && AllBackPointers(w, l.blocks) && Linked(w, kept)
    requires kept == WithoutAll(l.ring, Absorbed(l.blocks, i))
    requires Coalesced(w, v, Merged(l.blocks, i)) && KeepsPayloads(u, w, l.blocks)
    ensures
      var l' := Release(l, i);
      && Sentinels(v, lo, hi) && AllTagged(v, l'.blocks) && AllBackPointers(v, l'.blocks)
      && Linked(v, kept) && KeepsPayloads(u, v, l'.blocks)
  {
    hide *;
    ReleaseInMemory(w, v, l, lo, hi, i, kept);
    ReleaseKeepsOthers(u, w, l, i);
    KeepsPayloadsTwice(u, w, v, Release(l, i).blocks);
  }

  // Index of the block in use whose client pointer is `p`.
  function PointerIndex(blocks: seq<Block>, p: int): (i: nat)
    ensures i <= |blocks|
    ensures i < |blocks| ==> blocks[i].Pointer() == p && !Vacant(blocks[i])
    ensures i == |blocks| ==> forall k :: 0 <= k < |blocks| ==> Vacant(blocks[k]) || blocks[k].Pointer() != p
  {
    if blocks == [] then 0
    else if !Vacant(blocks[0]) && blocks[0].Pointer() == p then 0
    else 1 + PointerIndex(blocks[1..], p)
  }

  // `p` is a pointer some client holds.
  ghost predicate HeldPointer(l: Layout, p: int) {
    PointerIndex(l.blocks, p) < |l.blocks|
  }

  // The word below a held pointer: the header, with its allocated bit set, or
  // the true payload address, whose bit 0 is clear.
  lemma PointerWord(w: Words, l: Layout, lo: int, hi: int, p: int)
    requires WellFormed(l, lo, hi) && Represents(w, l, lo, hi) && HeldPointer(l, p)
    ensures
      var i := PointerIndex(l.blocks, p);
      var b := l.blocks[i];
      && p - 4 in w && p % 8 == 0 && lo + 4 <= p && p <= hi && lo <= b.start
      && IndexOf(l.blocks, b.start) == i && HeldPayload(l, b.Payload())
      && (UsedBit(w[p - 4]) == 1 <==> p == b.Payload())
      && (p != b.Payload() ==> w[p - 4] == b.Payload() && UsedBit(w[p - 4]) == 0)
  {
    PointerBlock(w, l, lo, hi, p);
    hide WellFormed, Represents, HeldPointer, PointerIndex, IndexOf, HeldPayload, Tagged, BackPointer, UsedBit;
    hide Block.Roomy, Block.Cut, Block.Pointer;
    PointerTag(w, l.blocks[PointerIndex(l.blocks, p)]);
  }

  // Where the pointer's block is.
  lemma PointerBlock(w: Words, l: Layout, lo: int, hi: int, p: int)
    requires WellFormed(l, lo, hi) && Represents(w, l, lo, hi) && HeldPointer(l, p)
    ensures
      var i := PointerIndex(l.blocks, p);
      var b := l.blocks[i];
      && b.Pointer() == p && !Vacant(b) && Tagged(w, b) && BackPointer(w, b) && b.Roomy() && b.Cut()
      && lo <= b.start && b.End() <= hi && IndexOf(l.blocks, b.start) == i && HeldPayload(l, b.Payload())
  {
    var i := PointerIndex(l.blocks, p);
    TileAt(l.blocks, lo, hi, i);
    IndexIsUnique(l.blocks, lo, hi, i);
    hide Tiled, NoFreeNeighbours, RingMatches, Sentinels, Linked, Tagged, BackPointer, Block.Roomy, Block.Cut, Block.Pointer;
  }

  // The word below the pointer of one block.
  lemma PointerTag(w: Words, b: Block)
    requires Tagged(w, b) && BackPointer(w, b) && b.Roomy() && b.Cut() && !Vacant(b)
    ensures
      var p := b.Pointer();
      && p - 4 in w && p % 8 == 0 && b.start + 4 <= p && p <= b.End()
      && (UsedBit(w[p - 4]) == 1 <==> p == b.Payload())
      && (p != b.Payload() ==> w[p - 4] == b.Payload() && UsedBit(w[p - 4]) == 0)
  {
    HeldBlockPointer(b);
    hide AlignedPayload, SizeOf, Block.Roomy, Block.Cut;
  }

  lemma HeldBlockPointer(b: Block)
    requires b.Roomy() && b.Cut() && !Vacant(b)
    ensures b.Pointer() % 8 == 0 && b.Payload() <= b.Pointer() && b.Pointer() + 4 <= b.End()
    ensures UsedBit(b.Payload()) == 0
  {
    hide AlignedPayload;
    AlignedPayloadGap(b.Payload());
    EvenAddress(b.start);
  }

  lemma EvenAddress(h: int)
    requires h % 8 == 4
    ensures (h + 4) % 8 == 0 && (h + 4) % 2 == 0
  {
    var q := h / 8;
    assert h + 4 == 8 * (q + 1) && h + 4 == 2 * (4 * (q + 1));
  }

  // The ring before and after the first insertion, and what it leaves alone.
  lemma FirstRing(w: Words, first: int)
    ensures Linked(w, []) && Distinct([first] + [])
    ensures [first] + [] == [first]
  {
  }

  lemma FirstRingIsHarmless(w: Words, v: Words, lo: int, hi: int)
    requires lo % 8 == 4 && (hi - lo) % 8 == 0 && hi - lo >= MIN_BLOCKSIZE
    requires Sentinels(w, lo, hi) && Tagged(w, Block(lo, hi - lo, Free))
    requires SameButLinks(w[lo + 4 := lo][lo + 8 := lo], v, [lo])
    ensures WellFormed(Initial(lo, hi), lo, hi)
    ensures Sentinels(v, lo, hi) && AllTagged(v, Initial(lo, hi).blocks) && AllBackPointers(v, Initial(lo, hi).blocks)
    ensures Initial(lo, hi).ring == [lo]
  {
    InitialInOrder(lo, hi);
    var u := w[lo + 4 := lo][lo + 8 := lo];
    var blocks := Initial(lo, hi).blocks;
    assert blocks[0] == Block(lo, hi - lo, Free) && FreeHeader(blocks, lo);
    assert AllTagged(u, blocks) && AllBackPointers(u, blocks) && Sentinels(u, lo, hi);
    LinkWritesAreHarmless(u, v, blocks, [lo], lo, hi);
  }
}
