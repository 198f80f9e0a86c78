// A client of the allocator: any list of calls and stores that the program
// allows, carried out on an Allocator, is a run.
module HeapClient {
  import opened Machine
  import opened BoundaryTag
  import opened BlockLayout
  import opened HeapWords
  import opened HeapRuns
  import opened Heap

  // The arguments are words, sizes pass malloc's assertion, and stores are
  // aligned.
  ghost predicate Callable(l: Layout, op: Op, lo: int, hi: int) {
    && Enabled(l, op)
    && match op
       case Alloc(ask) => ask.Bytes? ==> ask.n < hi - lo
       case FreeOp(p) => IsWord(p)
       case FreeLliOp(p) => IsWord(p)
       case Write(a, v) => IsWord(v) && lo <= a < hi && a % 4 == 0
  }

  ghost predicate AllCallable(l: Layout, ops: seq<Op>, lo: int, hi: int)
    decreases |ops|
  {
    ops == [] || (Callable(l, ops[0], lo, hi) && AllCallable(Apply(l, ops[0]), ops[1..], lo, hi))
  }

  // One call or store makes its step.
  method Perform(a: Allocator, op: Op)
    requires a.Valid() && Callable(a.layout, op, a.First(), a.Epilogue())
    modifies a`freeListHead, a`freeListCounter, a`layout, a.ram
    ensures a.Valid() && Step(old(a.Now()), op, a.Now(), a.First(), a.Epilogue())
  {
    match op
    case Alloc(Bytes(n)) =>
      var p := a.Malloc(n as uint32);
    case Alloc(Descriptor) =>
      var p := a.MallocLLI();
    case FreeOp(p) =>
      a.Free(p as uint32);
    case FreeLliOp(p) =>
      a.FreeLLI(p as uint32);
    case Write(x, v) =>
      a.ClientWrite(x as uint32, v as uint32);
  }

  ghost predicate Steps(ss: seq<Snapshot>, ops: seq<Op>, lo: int, hi: int) {
    |ss| == |ops| + 1 && forall k :: 0 <= k < |ops| ==> Step(ss[k], ops[k], ss[k + 1], lo, hi)
  }

  lemma OneMoreStep(ss: seq<Snapshot>, ops: seq<Op>, op: Op, t: Snapshot, lo: int, hi: int)
    requires Steps(ss, ops, lo, hi) && Step(ss[|ops|], op, t, lo, hi)
    ensures Steps(ss + [t], ops + [op], lo, hi)
    ensures Enabled(ss[|ops|].layout, op) && t.layout == Apply(ss[|ops|].layout, op)
  {
    var ss1, ops1 := ss + [t], ops + [op];
    forall k | 0 <= k < |ops1|
      ensures Step(ss1[k], ops1[k], ss1[k + 1], lo, hi)
    {
      if k < |ops| { assert Step(ss[k], ops[k], ss[k + 1], lo, hi); }
    }
  }

  // All of them, one after the other.
  method PerformAll(a: Allocator, ops: seq<Op>) returns (ghost ss: seq<Snapshot>)
    requires a.Valid() && AllCallable(a.layout, ops, a.First(), a.Epilogue())
    modifies a`freeListHead, a`freeListCounter, a`layout, a.ram
    ensures a.Valid() && Steps(ss, ops, a.First(), a.Epilogue()) && ss[0] == old(a.Now()) && ss[|ops|] == a.Now()
  {
    hide WellFormed, Represents, Allocator.RingValid, Allocator.Memory, Step, Callable, Apply;
    ss := [a.Now()];
    ghost var lo, hi := a.First(), a.Epilogue();
    for i := 0 to |ops|
      invariant a.Valid() && AllCallable(a.layout, ops[i..], lo, hi)
      invariant Steps(ss, ops[..i], lo, hi) && ss[0] == old(a.Now()) && ss[i] == a.Now()
    {
      assert ops[i..][0] == ops[i] && ops[i..][1..] == ops[i + 1..] && ops[..i + 1] == ops[..i] + [ops[i]];
      Perform(a, ops[i]);
      OneMoreStep(ss, ops[..i], ops[i], a.Now(), lo, hi);
      ss := ss + [a.Now()];
    }
    assert ops[..|ops|] == ops;
  }

  // On a heap as heap_init leaves it, they are a run: what the theorems say of
  // runs, they say of this program.
  method RunAll(a: Allocator, ops: seq<Op>) returns (ghost ss: seq<Snapshot>)
    requires a.Valid() && a.layout == Initial(a.First(), a.Epilogue())
    requires AllCallable(a.layout, ops, a.First(), a.Epilogue())
    modifies a`freeListHead, a`freeListCounter, a`layout, a.ram
    ensures a.Valid() && HeapBounds(a.First(), a.Epilogue())
    ensures Run(ss, ops, a.First(), a.Epilogue()) && ss[|ops|] == a.Now()
  {
    hide WellFormed, Allocator.RingValid, Allocator.Memory, AllCallable, Step;
    a.FirstIsPlaced();
    ss := PerformAll(a, ops);
  }
}
