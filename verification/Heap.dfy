// The boundary-tag allocator of src/mem_alloc.c, src/mem_free.c and
// src/mem_block.c over an array of memory words.
module Heap {
  import opened Machine
  import opened BoundaryTag
  import opened BlockLayout
  import opened HeapWords
  import HeapRuns

  const FREE: uint32 := 0
  const ALLOCATED: uint32 := 1
  const NULL: uint32 := 0
  const MIN_SIZE: uint32 := 16

  // RAM as the linker script places it (os.ld).
  const RAM_START: uint32 := 0x8000_0000
  const RAM_END: uint32 := 0x8800_0000

  function AlignUp32(x: uint32, n: uint32): (r: uint32)
    requires n > 0 && x as int + n as int <= 0x1_0000_0000
    requires AlignUp(x as int, n as int) < 0x1_0000_0000
    ensures r as int == AlignUp(x as int, n as int)
  {
    n * ((x + (n - 1)) / n)
  }

  function AlignDown32(x: uint32, n: uint32): (r: uint32)
    requires n > 0 && AlignDown(x as int, n as int) < 0x1_0000_0000
    ensures r as int == AlignDown(x as int, n as int)
  {
    n * (x / n)
  }

  function GetPayload(hp: uint32): (p: uint32)
    requires hp < RAM_END
    ensures hp % 8 == 4 ==> p == hp + 4
    ensures hp % 8 == 0 ==> p == hp
  {
    AlignUp32(hp, 8)
  }

  function GetHeader(hp: uint32): (h: uint32)
    requires RAM_START <= hp < RAM_END
    ensures hp % 8 == 4 ==> h == hp
    ensures hp % 8 == 0 ==> h == hp - 4
  {
    AlignUp32(hp, 8) - 4
  }

  // An aligned address names one cell, and no other address names it.
  lemma CellIndex(a: int, base: int)
    requires a % 4 == 0 && base % 4 == 0
    ensures a == base + 4 * ((a - base) / 4)
  {
    assert (a - base) % 4 == 0;
  }

  lemma BelowEighth(x: int)
    requires x % 8 == 0
    ensures (x - 4) % 4 == 0
  {
  }

  lemma Eighths(x: int)
    requires x % 8 == 0
    ensures x == 8 * (x / 8)
  {
  }

  // The words of an array by byte address.
  function CellMap(cells: seq<uint32>, base: int): Words {
    map a: int | base <= a < base + 4 * |cells| && a % 4 == 0 :: cells[(a - base) / 4] as int
  }

  lemma CellMapUpdate(cells: seq<uint32>, base: int, a: int, v: uint32)
    requires base % 4 == 0 && base <= a < base + 4 * |cells| && a % 4 == 0
    ensures CellMap(cells[(a - base) / 4 := v], base) == CellMap(cells, base)[a := v as int]
  {
    var s := cells[(a - base) / 4 := v];
    CellIndex(a, base);
    forall b | base <= b < base + 4 * |cells| && b % 4 == 0
      ensures CellMap(s, base)[b] == CellMap(cells, base)[a := v as int][b]
    {
      CellIndex(b, base);
    }
  }

  class Allocator {
    const ram: array<uint32>
    const allocStart: uint32
    const allocEnd: uint32
    var freeListHead: uint32
    var freeListCounter: uint32
    ghost var layout: Layout

    // heap_init over memory with arbitrary contents.
    constructor HeapInit(heapStart: uint32, heapSize: uint32, memory: array<uint32>)
      requires RAM_START <= heapStart && heapStart as int + heapSize as int <= RAM_END as int
      requires
        var start, end := AlignUp(heapStart as int, 8), AlignDown(heapStart as int + heapSize as int, 8);
        start + 32 <= end && end == start + 4 * memory.Length
      modifies memory
      ensures Valid() && ram == memory
      ensures allocStart as int == AlignUp(heapStart as int, 8)
      ensures allocEnd as int == AlignDown(heapStart as int + heapSize as int, 8)
      ensures layout == Initial(First(), Epilogue())
      ensures
        var first, end := allocStart as int + 12, allocEnd as int - 4;
        layout == Layout([Block(first, end - first, Tenant.Free)], [first])
    {
      RoundUpToEight(heapStart as int);
      RoundDownToEight(heapStart as int + heapSize as int);
      ram := memory;
      allocStart := AlignUp32(heapStart, 8);
      allocEnd := AlignDown32(heapStart + heapSize, 8);
      freeListHead := 0;
      freeListCounter := 0;
      layout := Layout([], []);
      new;
      hide AlignUp, AlignDown, Valid;
      InitSentinel();
      InitRing();
    }

    // The bounds heap_init establishes.
    ghost predicate Shape() {
      && RAM_START <= allocStart && allocEnd <= RAM_END
      && allocStart % 8 == 0 && allocEnd % 8 == 0
      && allocStart as int + 32 <= allocEnd as int
      && allocEnd as int == allocStart as int + 4 * ram.Length
    }

    ghost function First(): int { allocStart as int + 12 }

    ghost function Epilogue(): int { allocEnd as int - 4 }

    predicate Mapped(a: uint32) { allocStart <= a < allocEnd && a % 4 == 0 }

    // Memory as a map from byte addresses to words.
    ghost function Memory(): (w: Words)
      requires Shape()
      reads ram
    {
      CellMap(ram[..], allocStart as int)
    }

    // What a run of the allocator sees of this heap.
    ghost function Now(): HeapRuns.Snapshot
      requires Shape()
      reads this, ram
    {
      HeapRuns.Snapshot(Memory(), layout)
    }

    // head and counter describe the linked ring.
    ghost predicate RingValid()
      requires Shape()
      reads this, ram
    {
      && Linked(Memory(), layout.ring)
      && Distinct(layout.ring)
      && Placed(layout.ring, First(), Epilogue())
      && freeListCounter as int == |layout.ring|
      && freeListHead as int == (if layout.ring == [] then 0 else layout.ring[0])
    }

    ghost predicate Valid()
      reads this, ram
    {
      && Shape()
      && WellFormed(layout, First(), Epilogue())
      && Represents(Memory(), layout, First(), Epilogue())
      && RingValid()
    }

    // ------------------------------------------------------- memory and tags

    function Load(a: uint32): (v: uint32)
      requires Shape() && Mapped(a)
      reads ram
      ensures a as int in Memory() && v as int == Memory()[a as int]
    {
      ram[(a - allocStart) / 4]
    }

    method Store(a: uint32, v: uint32)
      requires Shape() && Mapped(a)
      modifies ram
      ensures Memory() == old(Memory())[a as int := v as int]
    {
      hide CellMap;
      CellMapUpdate(ram[..], allocStart as int, a as int, v);
      ram[(a - allocStart) / 4] := v;
    }

    function GetBlocksize(a: uint32): (s: uint32)
      requires Shape() && Mapped(a)
      reads ram
      ensures s as int == SizeOf(Memory()[a as int])
    {
      MaskedSizeIs(Load(a) as int);
      MaskedSize(Load(a) as int) as uint32
    }

    method SetBlocksize(a: uint32, size: uint32)
      requires Shape() && Mapped(a) && size % 8 == 0
      modifies ram
      ensures Memory() == old(Memory())[a as int := WithSize(old(Memory())[a as int], size as int)]
    {
      StoreSizeIs(Load(a) as int, size as int);
      WithSizeFields(Load(a) as int, size as int);
      Store(a, StoreSize(Load(a) as int, size as int) as uint32);
    }

    function GetAllocated(a: uint32): (u: uint32)
      requires Shape() && Mapped(a)
      reads ram
      ensures u as int == UsedBit(Memory()[a as int])
    {
      MaskedUsedIs(Load(a) as int);
      MaskedUsed(Load(a) as int) as uint32
    }

    method SetAllocated(a: uint32, used: uint32)
      requires Shape() && Mapped(a) && used <= 1
      modifies ram
      ensures Memory() == old(Memory())[a as int := WithUsed(old(Memory())[a as int], used as int)]
    {
      StoreUsedIs(Load(a) as int, used as int);
      WithUsedFields(Load(a) as int, used as int);
      Store(a, StoreUsed(Load(a) as int, used as int) as uint32);
    }

    // The size field of a tag whose allocated bit stays.
    method ResizeTag(a: uint32, size: uint32, ghost oldSize: int, ghost used: bool)
      requires Shape() && Mapped(a) && size % 8 == 0 && Tag(Memory(), a as int, oldSize, used)
      modifies ram
      ensures Tag(Memory(), a as int, size as int, used)
      ensures Memory() == old(Memory())[a as int := Memory()[a as int]]
    {
      WithSizeFields(Load(a) as int, size as int);
      SetBlocksize(a, size);
    }

    // Both fields of one tag.
    method SetTag(a: uint32, used: uint32, size: uint32)
      requires Shape() && Mapped(a) && used <= 1 && size % 8 == 0
      modifies ram
      ensures Tag(Memory(), a as int, size as int, used == ALLOCATED)
      ensures Memory() == old(Memory())[a as int := Memory()[a as int]]
    {
      WithUsedFields(Load(a) as int, used as int);
      SetAllocated(a, used);
      WithSizeFields(Load(a) as int, size as int);
      SetBlocksize(a, size);
    }

    // --------------------------------------------------------- neighbours

    // `size` is what the tag read says; it is the caller's to know.
    function GetFooter(hp: uint32, ghost size: int): (f: uint32)
      requires Shape() && RAM_START <= hp < RAM_END && Mapped(GetHeader(hp))
      requires Sized(Memory(), GetHeader(hp) as int, size) && 4 <= GetHeader(hp) as int + size < 0x1_0000_0000
      reads ram
      ensures f as int == GetHeader(hp) as int + size - 4
    {
      var header := GetHeader(hp);
      header + GetBlocksize(header) - 4
    }

    function GetNextHeader(hp: uint32, ghost size: int): (h: uint32)
      requires Shape() && RAM_START <= hp < RAM_END && Mapped(GetHeader(hp))
      requires Sized(Memory(), GetHeader(hp) as int, size) && GetHeader(hp) as int + size < 0x1_0000_0000
      reads ram
      ensures h as int == GetHeader(hp) as int + size
    {
      var header := GetHeader(hp);
      header + GetBlocksize(header)
    }

    function GetPrevHeader(hp: uint32, ghost size: int): (h: uint32)
      requires Shape() && RAM_START + 8 <= hp < RAM_END && Mapped(GetHeader(hp) - 4)
      requires Sized(Memory(), GetHeader(hp) as int - 4, size) && size <= GetHeader(hp) as int
      reads ram
      ensures h as int == GetHeader(hp) as int - size
    {
      var header := GetHeader(hp);
      header - GetBlocksize(header - 4)
    }

    // --------------------------------------------------------- the free ring

    function GetPrevFree(h: uint32): (p: uint32)
      requires Shape() && (h != 0 ==> h < allocEnd && Mapped(h + 4))
      reads ram
      ensures h != 0 ==> p as int == Memory()[h as int + 4]
    {
      if h == 0 then 0 else Load(h + 4)
    }

    function GetNextFree(h: uint32): (p: uint32)
      requires Shape() && (h != 0 ==> h < allocEnd && Mapped(h + 8))
      reads ram
      ensures h != 0 ==> p as int == Memory()[h as int + 8]
    {
      if h == 0 then 0 else Load(h + 8)
    }

    method SetPrevFree(h: uint32, p: uint32)
      requires Shape() && h < allocEnd && Mapped(h + 4)
      modifies ram
      ensures Memory() == old(Memory())[h as int + 4 := p as int]
    {
      Store(h + 4, p);
    }

    method SetNextFree(h: uint32, p: uint32)
      requires Shape() && h < allocEnd && Mapped(h + 8)
      modifies ram
      ensures Memory() == old(Memory())[h as int + 8 := p as int]
    {
      Store(h + 8, p);
    }

    lemma LinkCellsMapped(h: uint32)
      requires Shape() && PlacedAt(h as int, First(), Epilogue())
      ensures h < allocEnd && Mapped(h + 4) && Mapped(h + 8)
    {
    }

    lemma HeadIsNull()
      requires Shape() && RingValid()
      ensures freeListHead == 0 <==> layout.ring == []
    {
      hide Memory;
      if layout.ring != [] { assert layout.ring[0] in layout.ring; }
    }

    // Put a block at the head of the ring.
    method FreeListInsert(h: uint32)
      requires Shape() && RingValid()
      requires Distinct([h as int] + layout.ring) && |layout.ring| < 0x1000_0000
      requires Placed([h as int] + layout.ring, First(), Epilogue())
      modifies this`freeListHead, this`freeListCounter, this`layout, ram
      ensures RingValid() && layout == old(layout).(ring := [h as int] + old(layout.ring))
      ensures SameButLinks(old(Memory()), Memory(), layout.ring)
    {
      hide Memory, Linked, SameButLinks, Distinct;
      ghost var w, ring := Memory(), layout.ring;
      RingEnds(w, ring, h as int, First(), Epilogue());
      LinkCellsMapped(h);
      HeadIsNull();
      if freeListHead == 0 || freeListCounter == 0 {
        SetPrevFree(h, h);
        SetNextFree(h, h);
        freeListHead := h;
        freeListCounter := 1;
        layout := layout.(ring := [h as int]);
        SingletonRing(w, h as int);
        assert [h as int] + ring == [h as int];
        return;
      }
      LinkCellsMapped(freeListHead);
      var tail := GetPrevFree(freeListHead);
      LinkCellsMapped(tail);
      SetNextFree(h, freeListHead);
      SetPrevFree(freeListHead, h);
      SetNextFree(tail, h);
      SetPrevFree(h, tail);
      InsertLinks(w, ring, h as int);
      InsertTouchesLinks(w, ring, h as int);
      freeListHead := h;
      freeListCounter := freeListCounter + 1;
      layout := layout.(ring := [h as int] + ring);
    }

    // Take a block out of the ring.
    method FreeListDelete(h: uint32)
      requires Shape() && RingValid() && (layout.ring != [] ==> h as int in layout.ring)
      modifies this`freeListHead, this`freeListCounter, this`layout, ram
      ensures RingValid() && layout == old(layout).(ring := Without(old(layout.ring), h as int))
      ensures SameButLinks(old(Memory()), Memory(), layout.ring)
    {
      hide Memory, Distinct, Placed, Without;
      ghost var w, ring := Memory(), layout.ring;
      HeadIsNull();
      if freeListHead == 0 || freeListCounter == 0 {
        return;
      }
      ghost var j := RingDelete(w, ring, h as int, First(), Epilogue());
      layout := layout.(ring := Without(ring, h as int));
      if freeListCounter == 1 {
        freeListHead := 0;
        freeListCounter := 0;
        return;
      }
      LinkCellsMapped(h);
      var prevHeader := GetPrevFree(h);
      var nextHeader := GetNextFree(h);
      LinkCellsMapped(prevHeader);
      LinkCellsMapped(nextHeader);
      if h == freeListHead {
        freeListHead := nextHeader;
      }
      SetPrevFree(nextHeader, prevHeader);
      SetNextFree(prevHeader, nextHeader);
      freeListCounter := freeListCounter - 1;
    }

    // ------------------------------------------------------------ allocation

    // The four tags a split writes are aligned words of the heap.
    lemma SplitAddresses(h: uint32, size: uint32, request: uint32)
      requires Shape() && First() <= h as int && h as int + size as int <= Epilogue()
      requires h % 8 == 4 && size % 8 == 0 && request % 8 == 0
      requires MIN_BLOCKSIZE <= request as int <= size as int - MIN_BLOCKSIZE
      ensures Mapped(h) && Mapped(h + request - 4) && Mapped(h + request) && Mapped(h + size - 4)
      ensures GetHeader(h) == h && (size - request) % 8 == 0
    {
      hide GetHeader;
      HeaderArithmetic(h as int, size as int);
      HeaderArithmetic(h as int, request as int);
    }

    lemma HeaderArithmetic(h: int, size: int)
      requires h % 8 == 4 && size % 8 == 0
      ensures h % 4 == 0 && (h + size) % 8 == 4 && (h + size) % 4 == 0 && (h + size - 4) % 8 == 0 && (h + size - 4) % 4 == 0
    {
    }

    // Allocate the low end of a free block that is big enough to be cut.
    method TryAllocWithSplitting(h: uint32, request: uint32, ghost b: Block) returns (payload: uint32)
      requires Shape() && b.start == h as int && b.Cut() && MIN_BLOCKSIZE <= b.size
      requires First() <= b.start && b.End() <= Epilogue() && Tagged(Memory(), b) && request % 8 == 0
      modifies ram
      ensures payload == 0 <==> !(Vacant(b) && MIN_BLOCKSIZE <= request as int <= b.size - MIN_BLOCKSIZE)
      ensures payload == 0 ==> Memory() == old(Memory())
      ensures payload != 0 ==> payload == h + 4 && SplitWritten(old(Memory()), Memory(), b, request as int)
    {
      hide Memory, SizeOf, UsedBit, GetHeader;
      if request < MIN_SIZE {
        return 0;
      }
      HeaderArithmetic(b.start, b.size);
      var blocksize := GetBlocksize(h);
      var used := GetAllocated(h);
      if used == FREE && blocksize >= request {
        if blocksize - request >= MIN_SIZE {
          SplitAddresses(h, blocksize, request);
          var newFooter := GetFooter(h, b.size);
          ResizeTag(newFooter, blocksize - request, b.size, false);
          SetTag(h, ALLOCATED, request);
          var blockFooter := GetFooter(h, request as int);
          SetTag(blockFooter, ALLOCATED, request);
          var newHeader := GetNextHeader(h, request as int);
          SetTag(newHeader, FREE, blocksize - request);
          return GetPayload(h);
        } else {
          return 0;
        }
      }
      return 0;
    }

    // The end of malloc and of malloc_LLI: the cut block leaves the ring and
    // what remains of it enters at the head.
    method Relink(h: uint32, oldBlocksize: uint32, curBlocksize: uint32, ghost i: nat, ghost ask: Ask)
      requires Shape() && RingValid() && WellFormed(layout, First(), Epilogue()) && Legal(ask)
      requires i < |layout.blocks| && Fits(layout.blocks[i], ask) && layout.blocks[i].start == h as int
      requires oldBlocksize as int == layout.blocks[i].size && curBlocksize as int == RequestSize(ask, h as int)
      requires Sentinels(Memory(), First(), Epilogue())
      requires AllTagged(Memory(), Split(layout, i, ask).blocks) && AllBackPointers(Memory(), Split(layout, i, ask).blocks)
      modifies this`freeListHead, this`freeListCounter, this`layout, ram
      ensures Valid() && layout == Split(old(layout), i, ask)
      ensures KeepsPayloads(old(Memory()), Memory(), layout.blocks)
    {
      hide Memory, Split, Without, WellFormed, Tiled, AllRoomy, FreeHeader, RequestSize, Fits, Distinct, Placed;
      hide Linked, Sentinels, AllTagged, AllBackPointers, SameButLinks, KeepsPayloads;
      ghost var l, l', w1 := layout, Split(layout, i, ask), Memory();
      ghost var lo, hi := First(), Epilogue();
      SplitForRing(l, lo, hi, i, ask);
      FreeListDelete(h);
      ghost var w2 := Memory();
      LinkWritesAreHarmless(w1, w2, l'.blocks, Without(l.ring, h as int), lo, hi);
      HeldPieceTag(w2, l, i, ask);
      HeaderArithmetic(h as int, 0);
      if oldBlocksize > curBlocksize {
        FreeListInsert(GetNextHeader(h, curBlocksize as int));
      }
      LinkWritesAreHarmless(w2, Memory(), l'.blocks, l'.ring, lo, hi);
      layout := Layout(l'.blocks, layout.ring);
      KeepsPayloadsTwice(w1, w2, Memory(), l'.blocks);
    }

    // The loop body malloc and malloc_LLI share: try to cut the block at ring
    // position k; on success the cut block leaves the ring and its rest enters.
    method CutBlock(h: uint32, request: uint32, ghost k: nat, ghost i: nat, ghost ask: Ask) returns (payload: uint32)
      requires Valid() && Legal(ask) && ask.Bytes? && k < |layout.ring| && layout.ring[k] == h as int
      requires i == IndexOf(layout.blocks, h as int) && request as int == RequestSize(ask, h as int)
      modifies this`freeListHead, this`freeListCounter, this`layout, ram
      ensures Valid()
      ensures payload != 0 <==> FitsAt(old(layout.blocks), h as int, ask)
      ensures payload == 0 ==> layout == old(layout) && Memory() == old(Memory())
      ensures payload != 0 ==> payload == h + 4 && i < |old(layout.blocks)| && layout == Split(old(layout), i, ask)
      ensures KeepsPayloads(old(Memory()), Memory(), old(layout.blocks))
    {
      hide Memory, WellFormed, Represents, Split, SplitWritten, SizeOf, UsedBit, RequestSize;
      hide Linked, Sentinels, AllTagged, AllBackPointers;
      ghost var l, w := layout, Memory();
      ghost var at := RingPosition(w, l, First(), Epilogue(), k);
      RequestFacts(h, ask);
      var oldBlocksize := GetBlocksize(h);
      payload := TryAllocWithSplitting(h, request, l.blocks[i]);
      if payload != 0 {
        SplitInMemory(w, Memory(), l, First(), Epilogue(), i, ask);
        HeldPieceTag(Memory(), l, i, ask);
        var curBlocksize := GetBlocksize(h);
        ghost var w1 := Memory();
        Relink(h, oldBlocksize, curBlocksize, i, ask);
        KeptBySplit(w1, Memory(), l, i, ask);
        KeepsPayloadsTwice(w, w1, Memory(), l.blocks);
      }
    }

    lemma RequestFacts(h: uint32, ask: Ask)
      requires Shape() && PlacedAt(h as int, First(), Epilogue()) && Legal(ask)
      ensures RequestSize(ask, h as int) % 8 == 0 && RequestSize(ask, h as int) >= MIN_BLOCKSIZE
      ensures Mapped(h) && h < allocEnd && Mapped(h + 8)
    {
      hide RequestSize;
      RequestIsRoomy(ask, h as int);
      LinkCellsMapped(h);
      HeaderArithmetic(h as int, 0);
    }

    // First fit in ring order; 0 when no free block can be cut.
    method Malloc(size: uint32) returns (p: uint32)
      requires Valid() && 0 < size && size as int < Epilogue() - First()
      modifies this`freeListHead, this`freeListCounter, this`layout, ram
      ensures Valid()
      ensures (layout, p as int) == Allocate(old(layout), Bytes(size as int))
      ensures HeapRuns.Step(old(Now()), HeapRuns.Alloc(Bytes(size as int)), Now(), First(), Epilogue())
      ensures KeepsPayloads(old(Memory()), Memory(), old(layout.blocks))
    {
      hide Memory, WellFormed, Represents, Split, AlignUp, RoundUp8, FitsAt;
      ghost var l, w, ask := layout, Memory(), Bytes(size as int);
      RoundUpToEight(size as int);
      var request := AlignUp32(size, 8) + BOUNDARY_SIZE as uint32;
      request := if request < MIN_SIZE then MIN_SIZE else request;
      var blockHeader := freeListHead;
      var counter := freeListCounter;
      for k: uint32 := 0 to counter
        invariant Valid() && layout == l && Memory() == w && counter as int == |l.ring|
        invariant k < counter ==> blockHeader as int == l.ring[k]
        invariant FirstFit(l.blocks, l.ring, ask, 0) == FirstFit(l.blocks, l.ring, ask, k as int)
      {
        ghost var i := RingPosition(w, l, First(), Epilogue(), k as int);
        p := CutBlock(blockHeader, request, k as int, i, ask);
        if p != 0 {
          return;
        } else {
          RequestFacts(blockHeader, ask);
          blockHeader := GetNextFree(blockHeader);
        }
      }
      return NULL;
    }

    // Move a cut block's pointer up to the 64-byte boundary, leaving the true
    // payload address in the word below it.
    method PlaceDescriptor(h: uint32, payload: uint32, unalignedSize: uint32, ghost l: Layout, ghost i: nat) returns (p: uint32)
      requires Valid() && WellFormed(l, First(), Epilogue()) && i < |l.blocks| && l.blocks[i].start == h as int
      requires FitsAt(l.blocks, h as int, Descriptor) && layout == Split(l, i, PlainAsk(h as int))
      requires payload as int == h as int + 4 && unalignedSize == payload % 64
      modifies this`layout, ram
      ensures Valid() && layout == Split(l, i, Descriptor) && p as int == AlignedPayload(payload as int)
      ensures KeepsPayloads(old(Memory()), Memory(), l.blocks)
    {
      hide Memory, WellFormed, Split, FitsAt, Fits, IndexOf, RequestSize, Linked, Distinct, Placed;
      hide Sentinels, AllTagged, AllBackPointers, KeepsPayloads;
      DescriptorFits(l, First(), Epilogue(), i);
      DescriptorInMemory(Memory(), l, First(), Epilogue(), i);
      KeepsPayloadsSelf(Memory(), l.blocks);
      p := payload;
      if unalignedSize != 0 {
        var aligned := payload + 64 - unalignedSize;
        assert aligned as int == AlignedPayload(payload as int);
        BelowEighth(aligned as int);
        Store(aligned - 4, payload);
        p := aligned;
      }
      layout := Split(l, i, Descriptor);
    }

    // First fit in ring order for a 64-byte aligned descriptor.
    method MallocLLI() returns (p: uint32)
      requires Valid()
      modifies this`freeListHead, this`freeListCounter, this`layout, ram
      ensures Valid()
      ensures (layout, p as int) == Allocate(old(layout), Descriptor)
      ensures HeapRuns.Step(old(Now()), HeapRuns.Alloc(Descriptor), Now(), First(), Epilogue())
      ensures KeepsPayloads(old(Memory()), Memory(), old(layout.blocks))
    {
      hide Memory, WellFormed, Split, FitsAt, Fits, IndexOf, RequestSize, Linked, Distinct, Placed;
      hide Sentinels, AllTagged, AllBackPointers;
      hide AlignedPayload, KeepsPayloads;
      ghost var l, w := layout, Memory();
      var blockHeader := freeListHead;
      var counter := freeListCounter;
      KeepsPayloadsSelf(w, l.blocks);
      for k: uint32 := 0 to counter
        invariant Valid() && layout == l && Memory() == w && counter as int == |l.ring|
        invariant k < counter ==> blockHeader as int == l.ring[k]
        invariant FirstFit(l.blocks, l.ring, Descriptor, 0) == FirstFit(l.blocks, l.ring, Descriptor, k as int)
      {
        ghost var i := RingPosition(w, l, First(), Epilogue(), k as int);
        ghost var plain := PlainAsk(blockHeader as int);
        DescriptorFits(l, First(), Epilogue(), i);
        PlainForDescriptor(blockHeader as int);
        RequestFacts(blockHeader, Descriptor);
        var unalignedSize := GetPayload(blockHeader) % 64;
        var request := if unalignedSize != 0 then 64 * 2 - unalignedSize + 8 else 64 + 8;
        DescriptorRequest(blockHeader as int, request as int);
        p := CutBlock(blockHeader, request, k as int, i, plain);
        if p != 0 {
          ghost var w1 := Memory();
          p := PlaceDescriptor(blockHeader, p, unalignedSize, l, i);
          KeepsPayloadsTwice(w, w1, Memory(), l.blocks);
          return;
        } else {
          blockHeader := GetNextFree(blockHeader);
        }
      }
      return NULL;
    }

    lemma DescriptorRequest(h: int, request: int)
      requires request == if (h + 4) % 64 != 0 then 128 - (h + 4) % 64 + 8 else 72
      ensures RequestSize(Descriptor, h) == request
      ensures AlignedPayload(h + 4) == (if (h + 4) % 64 != 0 then h + 4 + 64 - (h + 4) % 64 else h + 4)
    {
    }

    // --------------------------------------------------------------- release

    // Give two adjoining blocks one header and one footer, marked free.
    method MergeFreeBlocks(low: uint32, high: uint32, ghost a: Block, ghost b: Block) returns (r: uint32)
      requires Shape() && a.start == low as int && b.start == high as int && a.End() == b.start
      requires a.Cut() && b.Cut() && a.size >= MIN_BLOCKSIZE && b.size >= MIN_BLOCKSIZE
      requires First() <= a.start && b.End() <= Epilogue()
      requires Sized(Memory(), a.start, a.size) && Sized(Memory(), b.start, b.size)
      modifies ram
      ensures r == low
      ensures Coalesced(old(Memory()), Memory(), Block(a.start, a.size + b.size, Tenant.Free))
      ensures forall x :: x in old(Memory()) && x != a.start && x != b.End() - 4 ==> Memory()[x] == old(Memory())[x]
    {
      hide Memory, SizeOf, UsedBit, GetHeader;
      HeaderArithmetic(a.start, a.size);
      HeaderArithmetic(b.start, b.size);
      SumOfEights(a.size, b.size, 0);
      HeadersGiven(low, high);
      var blocksize := GetBlocksize(low) + GetBlocksize(high);
      SetTag(low, FREE, blocksize);
      var highFooter := GetFooter(high, b.size);
      SetTag(highFooter, FREE, blocksize);
      return low;
    }

    lemma HeadersGiven(low: uint32, high: uint32)
      requires Shape() && low % 8 == 4 && high % 8 == 4 && low < allocEnd && high < allocEnd
      requires RAM_START <= low && RAM_START <= high
      ensures GetHeader(low) == low && GetHeader(high) == high
    {
    }

    // The blocks are all in memory; the ring may have lost some of them.
    ghost predicate BlocksInMemory(l: Layout)
      requires Shape()
      reads this, ram
    {
      && Sentinels(Memory(), First(), Epilogue())
      && AllTagged(Memory(), l.blocks)
      && AllBackPointers(Memory(), l.blocks)
      && layout.blocks == l.blocks
      && (forall r :: r in layout.ring ==> FreeHeader(l.blocks, r))
    }

    // free_list_delete of a free neighbour disturbs no block.
    method DeleteNeighbour(h: uint32, ghost l: Layout)
      requires Shape() && RingValid() && WellFormed(l, First(), Epilogue()) && BlocksInMemory(l)
      requires h as int in layout.ring
      modifies this`freeListHead, this`freeListCounter, this`layout, ram
      ensures RingValid() && BlocksInMemory(l) && layout.ring == Without(old(layout.ring), h as int)
      ensures KeepsPayloads(old(Memory()), Memory(), l.blocks)
    {
      hide Memory, Linked, Placed, Sentinels, AllTagged, AllBackPointers, KeepsPayloads, FreeHeader, SameButLinks;
      ghost var w := Memory();
      WithoutMembers(layout.ring, h as int);
      FreeListDelete(h);
      LinkWritesAreHarmless(w, Memory(), l.blocks, layout.ring, First(), Epilogue());
    }

    // Block i is in use and about to be given back.
    ghost predicate Releasing(i: nat, header: int)
      reads this, ram
    {
      Valid() && i < |layout.blocks| && !Vacant(layout.blocks[i]) && layout.blocks[i].start == header
    }

    // The free neighbours of block i have left the ring and the merged block
    // is in memory.
    ghost predicate MergedInMemory(l: Layout, i: nat, u: Words)
      requires i < |l.blocks|
      reads this, ram
    {
      && Shape() && RingValid()
      && layout == Layout(l.blocks, WithoutAll(l.ring, Absorbed(l.blocks, i)))
      && Sentinels(Memory(), First(), Epilogue())
      && AllTagged(Memory(), Release(l, i).blocks) && AllBackPointers(Memory(), Release(l, i).blocks)
      && KeepsPayloads(u, Memory(), Release(l, i).blocks)
    }

    // Clear the allocated bit of one tag.
    method MarkFree(a: uint32, ghost size: int)
      requires Shape() && Mapped(a) && Tag(Memory(), a as int, size, true)
      modifies ram
      ensures Tag(Memory(), a as int, size, false)
      ensures Memory() == old(Memory())[a as int := Memory()[a as int]]
    {
      WithUsedFields(Load(a) as int, 0);
      SetAllocated(a, FREE);
    }

    // Case 1: both neighbours are in use.
    method FreeAlone(reqHeader: uint32, reqFooter: uint32, ghost i: nat) returns (merged: uint32)
      requires Releasing(i, reqHeader as int) && MergeTo(layout.blocks, i) == i + 1 && MergeFrom(layout.blocks, i) == i
      requires reqFooter as int == layout.blocks[i].End() - 4
      modifies this`freeListHead, this`freeListCounter, this`layout, ram
      ensures MergedInMemory(old(layout), i, old(Memory())) && merged as int == Merged(old(layout.blocks), i).start
    {
      hide Memory, SizeOf, UsedBit, GetHeader, Linked, Placed, Distinct, Sentinels, AllTagged, AllBackPointers, WellFormed;
      hide KeepsPayloads, Release, FreeHeader, WithoutAll, Absorbed, Merged, MergeFrom, MergeTo, Represents;
      ghost var l, u, lo, hi := layout, Memory(), First(), Epilogue();
      AllInMemory();
      AbsorbedNeighbours(l, lo, hi, i);
      ghost var prev := NeighbourTags(u, l, lo, hi, i);
      HeaderArithmetic(l.blocks[i].start, l.blocks[i].size);
      ghost var w := Memory();
      MarkFree(reqHeader, l.blocks[i].size);
      MarkFree(reqFooter, l.blocks[i].size);
      merged := reqHeader;
      KeepsPayloadsSelf(u, l.blocks);
      MergeDone(u, w, Memory(), l, lo, hi, i, layout.ring);
    }

    // Case 2: the next block is free.
    method FreeWithNext(reqHeader: uint32, nextHeader: uint32, ghost i: nat) returns (merged: uint32)
      requires Releasing(i, reqHeader as int) && MergeTo(layout.blocks, i) == i + 2 && MergeFrom(layout.blocks, i) == i
      requires nextHeader as int == layout.blocks[i].End()
      modifies this`freeListHead, this`freeListCounter, this`layout, ram
      ensures MergedInMemory(old(layout), i, old(Memory())) && merged as int == Merged(old(layout.blocks), i).start
    {
      hide Memory, SizeOf, UsedBit, GetHeader, Linked, Placed, Distinct, Sentinels, AllTagged, AllBackPointers, WellFormed;
      hide KeepsPayloads, Release, FreeHeader, WithoutAll, Absorbed, Merged, MergeFrom, MergeTo, Represents;
      ghost var l, u, lo, hi := layout, Memory(), First(), Epilogue();
      AllInMemory();
      AbsorbedNeighbours(l, lo, hi, i);
      DeleteNeighbour(nextHeader, l);
      ghost var w := Memory();
      HeaderSize(w, l.blocks, i);
      HeaderSize(w, l.blocks, i + 1);
      merged := MergeFreeBlocks(reqHeader, nextHeader, l.blocks[i], l.blocks[i + 1]);
      MergeDone(u, w, Memory(), l, lo, hi, i, layout.ring);
    }

    // Case 3: the previous block is free.
    method FreeWithPrev(reqHeader: uint32, prevHeader: uint32, ghost i: nat) returns (merged: uint32)
      requires Releasing(i, reqHeader as int) && MergeTo(layout.blocks, i) == i + 1 && MergeFrom(layout.blocks, i) == i - 1
      requires prevHeader as int == layout.blocks[i - 1].start
      modifies this`freeListHead, this`freeListCounter, this`layout, ram
      ensures MergedInMemory(old(layout), i, old(Memory())) && merged as int == Merged(old(layout.blocks), i).start
    {
      hide Memory, SizeOf, UsedBit, GetHeader, Linked, Placed, Distinct, Sentinels, AllTagged, AllBackPointers, WellFormed;
      hide KeepsPayloads, Release, FreeHeader, WithoutAll, Absorbed, Merged, MergeFrom, MergeTo, Represents;
      ghost var l, u, lo, hi := layout, Memory(), First(), Epilogue();
      AllInMemory();
      AbsorbedNeighbours(l, lo, hi, i);
      DeleteNeighbour(prevHeader, l);
      ghost var w := Memory();
      HeaderSize(w, l.blocks, i - 1);
      HeaderSize(w, l.blocks, i);
      merged := MergeFreeBlocks(prevHeader, reqHeader, l.blocks[i - 1], l.blocks[i]);
      MergeDone(u, w, Memory(), l, lo, hi, i, layout.ring);
    }

    // Case 4: both neighbours are free.
    method FreeWithBoth(reqHeader: uint32, nextHeader: uint32, prevHeader: uint32, ghost i: nat) returns (merged: uint32)
      requires Releasing(i, reqHeader as int) && MergeTo(layout.blocks, i) == i + 2 && MergeFrom(layout.blocks, i) == i - 1
      requires nextHeader as int == layout.blocks[i].End() && prevHeader as int == layout.blocks[i - 1].start
      modifies this`freeListHead, this`freeListCounter, this`layout, ram
      ensures MergedInMemory(old(layout), i, old(Memory())) && merged as int == Merged(old(layout.blocks), i).start
    {
      hide Memory, SizeOf, UsedBit, GetHeader, Linked, Placed, Distinct, Sentinels, AllTagged, AllBackPointers, WellFormed;
      hide KeepsPayloads, Release, FreeHeader, WithoutAll, Absorbed, Merged, MergeFrom, MergeTo, Represents;
      ghost var l, u, lo, hi := layout, Memory(), First(), Epilogue();
      AllInMemory();
      AbsorbedNeighbours(l, lo, hi, i);
      ghost var a, b, c := l.blocks[i - 1], l.blocks[i], l.blocks[i + 1];
      DeleteNeighbour(nextHeader, l);
      ghost var w1 := Memory();
      DeleteNeighbour(prevHeader, l);
      ghost var w := Memory();
      KeepsPayloadsTwice(u, w1, w, l.blocks);
      HeaderSize(w, l.blocks, i - 1);
      HeaderSize(w, l.blocks, i);
      HeaderSize(w, l.blocks, i + 1);
      SumOfEights(a.size, b.size, 0);
      merged := MergeFreeBlocks(prevHeader, reqHeader, a, b);
      merged := MergeFreeBlocks(merged, nextHeader, Block(a.start, a.size + b.size, Tenant.Free), c);
      MergeDone(u, w, Memory(), l, lo, hi, i, layout.ring);
    }

    lemma AllInMemory()
      requires Valid()
      ensures BlocksInMemory(layout)
    {
      MembersPlaced(layout, First(), Epilogue());
    }

    lemma HeaderIsHeader(h: uint32)
      requires RAM_START <= h < RAM_END && h % 8 == 4
      ensures GetHeader(h) == h
    {
    }

    lemma PayloadAddress(ptr: uint32)
      requires RAM_START + 4 <= ptr < RAM_END && ptr % 8 == 0
      ensures GetHeader(ptr) == ptr - 4 && GetHeader(ptr - 4) == ptr - 4
    {
    }

    lemma InMemoryIsMapped(a: int)
      requires Shape() && a in Memory()
      ensures allocStart as int <= a < allocEnd as int && Mapped(a as uint32)
    {
    }

    lemma SizedIsMapped(a: int, size: int)
      requires Shape() && Sized(Memory(), a, size)
      ensures RAM_START as int <= a < RAM_END as int && Mapped(a as uint32) && allocStart as int <= a
    {
      InMemoryIsMapped(a);
    }

    lemma UsedIsMapped(a: int, used: bool)
      requires Shape() && UsedIs(Memory(), a, used)
      ensures RAM_START as int <= a < RAM_END as int && Mapped(a as uint32)
      ensures GetAllocated(a as uint32) == (if used then ALLOCATED else FREE)
    {
      InMemoryIsMapped(a);
    }

    // The end of every case: the merged block enters the ring at its head.
    method InsertMerged(merged: uint32, ghost l: Layout, ghost i: nat, ghost u: Words)
      requires Shape() && WellFormed(l, First(), Epilogue()) && i < |l.blocks| && !Vacant(l.blocks[i])
      requires MergedInMemory(l, i, u) && merged as int == Merged(l.blocks, i).start
      modifies this`freeListHead, this`freeListCounter, this`layout, ram
      ensures Valid() && layout == Release(l, i) && KeepsPayloads(u, Memory(), layout.blocks)
    {
      hide Memory, Linked, Placed, Distinct, Sentinels, AllTagged, AllBackPointers, WellFormed;
      hide KeepsPayloads, Release, FreeHeader, WithoutAll, Absorbed, Merged, SameButLinks;
      ghost var lo, hi, w1 := First(), Epilogue(), Memory();
      ReleaseForRing(l, lo, hi, i);
      FreeListInsert(merged);
      LinkWritesAreHarmless(w1, Memory(), Release(l, i).blocks, layout.ring, lo, hi);
      layout := Layout(Release(l, i).blocks, layout.ring);
      KeepsPayloadsTwice(u, w1, Memory(), layout.blocks);
    }

    // The header of the block a client gives back.
    method OwnHeader(ptr: uint32, ghost i: nat) returns (reqHeader: uint32)
      requires Valid() && i < |layout.blocks| && ptr as int == layout.blocks[i].Payload() && !Vacant(layout.blocks[i])
      ensures Releasing(i, reqHeader as int)
    {
      hide Memory;
      ghost var b := layout.blocks[i];
      TileAt(layout.blocks, First(), Epilogue(), i);
      EvenAddress(b.start);
      PayloadAddress(ptr);
      reqHeader := GetHeader(ptr);
    }

    // The tags above block i, as free reads them.
    method ReadAbove(reqHeader: uint32, ghost i: nat) returns (reqFooter: uint32, nextHeader: uint32, nextUsed: uint32)
      requires Releasing(i, reqHeader as int)
      ensures reqFooter as int == layout.blocks[i].End() - 4 && nextHeader as int == layout.blocks[i].End()
      ensures nextUsed == (if MergeTo(layout.blocks, i) > i + 1 then FREE else ALLOCATED)
    {
      hide WellFormed, Sentinels, AllTagged, AllBackPointers, Linked, Distinct, Placed, Memory, Tagged, Vacant;
      hide Sized, UsedIs, GetHeader, Mapped, MergeFrom, MergeTo;
      ghost var b := layout.blocks[i];
      ghost var prev := NeighbourTags(Memory(), layout, First(), Epilogue(), i);
      hide Shape, First, Epilogue, Valid, Represents, RingValid;
      SizedIsMapped(b.start, b.size);
      UsedIsMapped(b.start, true);
      UsedIsMapped(b.End(), MergeTo(layout.blocks, i) == i + 1);
      HeaderIsHeader(reqHeader);
      reqFooter := GetFooter(reqHeader, b.size);
      assert GetAllocated(reqHeader) == ALLOCATED;
      assert b.size >= MIN_BLOCKSIZE;
      nextHeader := GetNextHeader(reqHeader, b.size);
      nextUsed := GetAllocated(nextHeader);
    }

    // The tags below block i, as free reads them.
    method ReadBelow(reqHeader: uint32, ghost i: nat) returns (prevHeader: uint32, prevUsed: uint32)
      requires Releasing(i, reqHeader as int)
      ensures MergeFrom(layout.blocks, i) < i ==> prevHeader as int == layout.blocks[i - 1].start
      ensures prevUsed == (if MergeFrom(layout.blocks, i) < i then FREE else ALLOCATED)
    {
      hide WellFormed, Sentinels, AllTagged, AllBackPointers, Linked, Distinct, Placed, Memory, Tagged, Vacant;
      hide Sized, UsedIs, GetHeader, Mapped, MergeFrom, MergeTo;
      ghost var b := layout.blocks[i];
      ghost var prev := NeighbourTags(Memory(), layout, First(), Epilogue(), i);
      hide Shape, First, Epilogue, Valid, Represents, RingValid;
      SizedIsMapped(b.start, b.size);
      SizedIsMapped(b.start - 4, b.start - prev);
      UsedIsMapped(prev, MergeFrom(layout.blocks, i) == i);
      HeaderIsHeader(reqHeader);
      prevHeader := GetPrevHeader(reqHeader, b.start - prev);
      prevUsed := GetAllocated(prevHeader);
    }

    // Give a block back, merged with its free neighbours, at the ring's head.
    method Free(ptr: uint32)
      requires Valid() && (ptr != NULL ==> HeldPayload(layout, ptr as int))
      modifies this`freeListHead, this`freeListCounter, this`layout, ram
      ensures Valid()
      ensures ptr == NULL ==> layout == old(layout) && Memory() == old(Memory())
      ensures ptr != NULL ==> layout == Release(old(layout), IndexOf(old(layout.blocks), ptr as int - 4))
      ensures HeapRuns.Step(old(Now()), HeapRuns.FreeOp(ptr as int), Now(), First(), Epilogue())
      ensures KeepsPayloads(old(Memory()), Memory(), layout.blocks)
    {
      hide Memory, WellFormed, Represents, RingValid, Release, Merged, MergedInMemory, KeepsPayloads, IndexOf;
      KeepsPayloadsSelf(Memory(), layout.blocks);
      if ptr == NULL {
        return;
      }
      ghost var l, w, i := layout, Memory(), IndexOf(layout.blocks, ptr as int - 4);
      var reqHeader := OwnHeader(ptr, i);
      var reqFooter, nextHeader, nextUsed := ReadAbove(reqHeader, i);
      var prevHeader, prevUsed := ReadBelow(reqHeader, i);
      var merged;
      if nextUsed == ALLOCATED && prevUsed == ALLOCATED {
        merged := FreeAlone(reqHeader, reqFooter, i);
      } else if nextUsed == FREE && prevUsed == ALLOCATED {
        merged := FreeWithNext(reqHeader, nextHeader, i);
      } else if nextUsed == ALLOCATED && prevUsed == FREE {
        merged := FreeWithPrev(reqHeader, prevHeader, i);
      } else {
        merged := FreeWithBoth(reqHeader, nextHeader, prevHeader, i);
      }
      InsertMerged(merged, l, i, w);
    }

    // Give back a descriptor: the word below its pointer is a header exactly
    // when bit 0 is set, else it is the payload address of its block.
    method FreeLLI(ptr: uint32)
      requires Valid() && HeldPointer(layout, ptr as int)
      modifies this`freeListHead, this`freeListCounter, this`layout, ram
      ensures Valid()
      ensures layout == Release(old(layout), PointerIndex(old(layout.blocks), ptr as int))
      ensures HeapRuns.Step(old(Now()), HeapRuns.FreeLliOp(ptr as int), Now(), First(), Epilogue())
      ensures KeepsPayloads(old(Memory()), Memory(), layout.blocks)
    {
      hide Memory, WellFormed, Represents, Linked, Distinct, Placed, KeepsPayloads, IndexOf, PointerIndex, Release;
      hide Block.Pointer, MaskedUsed, Mapped;
      PointerWord(Memory(), layout, First(), Epilogue(), ptr as int);
      InMemoryIsMapped(ptr as int - 4);
      MaskedUsedIs(Load(ptr - 4) as int);
      var below := Load(ptr - 4);
      if MaskedUsed(below as int) != 0 {
        Free(ptr);
      } else {
        var realPayload := Load(ptr - 4);
        Free(realPayload);
      }
    }

    // A client's store through a pointer it holds.
    method ClientWrite(a: uint32, v: uint32)
      requires Valid() && Mapped(a) && HeapRuns.MayWrite(layout, a as int)
      modifies ram
      ensures Valid() && Memory() == old(Memory())[a as int := v as int]
      ensures HeapRuns.Step(old(Now()), HeapRuns.Write(a as int, v as int), Now(), First(), Epilogue())
    {
      hide Memory, WellFormed, Sentinels, AllTagged, AllBackPointers, Linked, Distinct, Placed;
      HeapRuns.ClientWriteKeepsHeap(Memory(), layout, First(), Epilogue(), a as int, v as int);
      Store(a, v);
    }

    // -------------------------------------------------------- initialization

    function GetPrologue(): uint32
      requires Shape()
    {
      allocStart + 4
    }

    function GetEpilogue(): uint32
      requires Shape()
    {
      allocEnd - 4
    }

    function GetFirstBlock(): (h: uint32)
      requires Shape()
      ensures h as int == First()
    {
      GetPrologue() + 8
    }

    lemma FirstIsPlaced()
      requires Shape()
      ensures First() % 8 == 4 && (Epilogue() - First()) % 8 == 0 && Epilogue() - First() >= MIN_BLOCKSIZE
      ensures PlacedAt(First(), First(), Epilogue())
    {
      Eighths(allocStart as int);
      Eighths(allocEnd as int);
      var a, b := allocStart as int / 8, allocEnd as int / 8;
      assert First() == 8 * (a + 1) + 4 && Epilogue() - First() == 8 * (b - a - 2);
    }

    // The first block alone in the ring.
    method InitRing()
      requires Shape() && Sentinels(Memory(), First(), Epilogue()) && layout == Layout([], [])
      requires Tagged(Memory(), Block(First(), Epilogue() - First(), Tenant.Free))
      modifies this`freeListHead, this`freeListCounter, this`layout, ram
      ensures Valid() && layout == Initial(First(), Epilogue())
    {
      hide Memory, Initial, WellFormed, Linked, Sentinels, AllTagged, AllBackPointers, SameButLinks, Tagged;
      var firstBlock := GetFirstBlock();
      FirstIsPlaced();
      ghost var w := Memory();
      LinkCellsMapped(firstBlock);
      SetPrevFree(firstBlock, firstBlock);
      SetNextFree(firstBlock, firstBlock);
      freeListHead := 0;
      freeListCounter := 0;
      FirstRing(Memory(), firstBlock as int);
      FreeListInsert(firstBlock);
      FirstRingIsHarmless(w, Memory(), First(), Epilogue());
      layout := Initial(First(), Epilogue());
    }

    // Header and footer of one block, which only its own tags change.
    method TagBlock(h: uint32, used: uint32, size: uint32)
      requires Shape() && h % 8 == 4 && size % 8 == 0 && size >= 8 && used <= 1
      requires allocStart < h && h as int + size as int <= Epilogue()
      modifies ram
      ensures Tag(Memory(), h as int, size as int, used == ALLOCATED)
      ensures Tag(Memory(), h as int + size as int - 4, size as int, used == ALLOCATED)
      ensures forall a :: a in old(Memory()) && (a < h as int || h as int + size as int <= a) ==>
        a in Memory() && Memory()[a] == old(Memory())[a]
    {
      hide Memory, SizeOf, UsedBit, GetHeader;
      HeaderArithmetic(h as int, size as int);
      HeaderIsHeader(h);
      SetTag(h, used, size);
      var footer := GetFooter(h, size as int);
      SetTag(footer, used, size);
    }

    // Tag the two sentinels and the one free block between them.
    method InitSentinel()
      requires Shape()
      modifies ram
      ensures Sentinels(Memory(), First(), Epilogue())
      ensures Tagged(Memory(), Block(First(), Epilogue() - First(), Tenant.Free))
    {
      hide Memory, SizeOf, UsedBit, GetHeader, PlacedAt;
      FirstIsPlaced();
      HeaderArithmetic(First(), Epilogue() - First());
      var prologueHeader := GetPrologue();
      TagBlock(prologueHeader, ALLOCATED, 8);
      var epilogueHeader := GetEpilogue();
      SetTag(epilogueHeader, ALLOCATED, 0);
      var firstHeader := GetFirstBlock();
      TagBlock(firstHeader, FREE, allocEnd - allocStart - 4 - 8 - 4);
    }
  }
}
