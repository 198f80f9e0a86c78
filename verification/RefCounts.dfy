// Reference counts of data cells: in every graph a count is the number of the
// cell's tokens plus those that pseudo tasks dropped.  So a cell is freed by its
// last consumer's load, once, and never while a token points at it; and it is
// never freed exactly if a token for it was dropped.
module RefCounts {
  import opened TokenFifo
  import opened Dataflow
  import opened TokenFlow
  import opened SchedulerSteps
  import opened SchedulerInvariants
  import opened SchedulerRuns
  import opened Determinacy
  import opened TokenShares

  // A cell's count is the number of its tokens; it is freed when none is left.
  predicate CountRight(cells: seq<Cell>, d: nat, tokens: nat) {
    if d < |cells| then cells[d].cnt >= 1 && tokens == (if cells[d].freed then 0 else cells[d].cnt) else tokens == 0
  }

  // Where lost(d) tokens of cell d were dropped.
  ghost predicate CountedBut(g: Graph, s: State, lost: nat -> nat)
    requires |s.fire| == |g.actors|
  {
    forall d: nat :: CountRight(s.cells, d, Shares(g, s, d) + lost(d))
  }

  function Nothing(d: nat): nat { 0 }

  ghost predicate Counted(g: Graph, s: State)
    requires |s.fire| == |g.actors|
  {
    CountedBut(g, s, Nothing)
  }

  // ---------------------------------------------------------- making ready

  // The tokens that making actor a ready drops: a pseudo task's real ones.
  ghost function Dropped(g: Graph, s: State, a: nat, d: nat): nat
    requires WellFormed(g) && Shaped(g, s) && a < |g.actors| && ActorReady(g, s, a)
  {
    if PseudoFirst(g, s, a) then Occurs(HeadsOf(g, s, a), d) else 0
  }

  lemma ConsumeShares(g: Graph, s: State, P: int, a: nat, d: nat)
    requires Flow(g, s, P) && a < |g.actors| && ActorReady(g, s, a)
    ensures Shares(g, Consume(g, s, a), d) + Dropped(g, s, a, d) == Shares(g, s, d)
  {
    ActorRowsIn(g, s, a);
    FlowBounds(g, s, P, a);
    var ins := g.actors[a].ins;
    forall i | 0 <= i < |ins|
      ensures s.fifos[ins[i]].rptr < s.fifos[ins[i]].wptr
    {
      assert ins[i] in ins;
      assert EdgeFlow(g, s, P, ins[i]);
    }
    DropRowTokens(s.fifos, ins, d);
    if PseudoFirst(g, s, a) {
      RoomForPseudo(g, s, P, a);
      PutResultsTokens(Taken(g, s, a), g.actors[a].outs, [], d);
    } else {
      ReadyAppend(s.ready, Ready(a, HeadsOf(g, s, a)), d);
    }
  }

  // The out-edges have room for a pseudo firing's tokens.
  lemma RoomForPseudo(g: Graph, s: State, P: int, a: nat)
    requires Flow(g, s, P) && a < |g.actors| && ActorReady(g, s, a)
    ensures RowsIn(Taken(g, s, a), g.actors[a].outs) && AllInRange(Taken(g, s, a))
    ensures DistinctRows(g.actors[a].outs) && Room(Taken(g, s, a), g.actors[a].outs)
  {
    var fs, outs := Taken(g, s, a), g.actors[a].outs;
    ActorRowsIn(g, s, a);
    ActorRowsIn(g, s.(fifos := fs), a);
    FlowBounds(g, s, P, a);
    forall e | 0 <= e < |fs| && InRow(outs, e)
      ensures fs[e].rptr <= fs[e].wptr < 8
    {
      InsAreSinks(g, a, e);
      DropRowAt(s.fifos, g.actors[a].ins, e);
      assert EdgeFlow(g, s, P, e) && (g.snk[e] >= 0 ==> g.src[e] < g.snk[e]);
    }
  }

  // All that the turn of actor a, or of all actors from a on, drops.
  ghost function SweepActorDrops(g: Graph, s: State, P: int, a: nat, d: nat): nat
    requires Flow(g, s, P) && a < |g.actors|
    decreases P - Consumed(g, s, a)
  {
    FlowBounds(g, s, P, a);
    if FireCheck(g, s, a) then
      ConsumeKeepsFlow(g, s, P, a);
      ConsumeActor(g, s, P, a, a);
      Dropped(g, s, a, d) + SweepActorDrops(g, Consume(g, s, a), P, a, d)
    else 0
  }

  ghost function SweepDrops(g: Graph, s: State, P: int, a: nat, d: nat): nat
    requires Flow(g, s, P) && a <= |g.actors|
    decreases |g.actors| - a
  {
    if a == |g.actors| then 0 else SweepActorDrops(g, s, P, a, d) + SweepDrops(g, SweepActor(g, s, P, a), P, a + 1, d)
  }

  lemma {:induction false} SweepActorShares(g: Graph, s: State, P: int, a: nat, d: nat)
    requires Flow(g, s, P) && a < |g.actors|
    ensures Shares(g, SweepActor(g, s, P, a), d) + SweepActorDrops(g, s, P, a, d) == Shares(g, s, d)
    decreases P - Consumed(g, s, a)
  {
    FlowBounds(g, s, P, a);
    if FireCheck(g, s, a) {
      ConsumeKeepsFlow(g, s, P, a);
      ConsumeActor(g, s, P, a, a);
      ConsumeShares(g, s, P, a, d);
      hide Flow, ActorReady, FireCheck, Shares, Dropped;
      SweepActorShares(g, Consume(g, s, a), P, a, d);
    }
  }

  lemma {:induction false} SweepShares(g: Graph, s: State, P: int, a: nat, d: nat)
    requires Flow(g, s, P) && a <= |g.actors|
    ensures Shares(g, SweepFrom(g, s, P, a), d) + SweepDrops(g, s, P, a, d) == Shares(g, s, d)
    decreases |g.actors| - a
  {
    if a < |g.actors| {
      var t := SweepActor(g, s, P, a);
      SweepUnfolds(g, s, P, a, d);
      assert Flow(g, t, P);
      hide Flow, Shares, SweepActor, SweepFrom, SweepActorDrops, SweepDrops;
      SweepActorShares(g, s, P, a, d);
      SweepShares(g, t, P, a + 1, d);
    }
  }

  lemma SweepUnfolds(g: Graph, s: State, P: int, a: nat, d: nat)
    requires Flow(g, s, P) && a < |g.actors|
    ensures
      var t := SweepActor(g, s, P, a);
      && SweepFrom(g, s, P, a) == SweepFrom(g, t, P, a + 1)
      && SweepDrops(g, s, P, a, d) == SweepActorDrops(g, s, P, a, d) + SweepDrops(g, t, P, a + 1, d)
  {
    hide Flow, SweepActor, SweepActorDrops;
  }

  // ------------------------------------------------------------- each event

  lemma HandOutShares(g: Graph, s: State, P: int, d: nat)
    requires Inv(g, s, P) && s.idle != [] && s.ready != []
    ensures s.idle[0] < |s.blocks| && Sized(g, HandOut(s)) && Shares(g, HandOut(s), d) == Shares(g, s, d)
  {
    HandOutKeepsInv(g, s, P);
    var t := HandOut(s);
    var r := Select(s.ready, s.blocks[s.idle[0]].actor);
    var a := s.ready[r].actor;
    var f := t.fire[a][|s.fire[a]|];
    hide Inv;
    ReadyRemove(s.ready, r, d);
    FireAppend(g.actors[a].outs, s.fire[a], f, d);
    FiresUpdate(g, s.fire, a, t.fire[a], d);
  }

  // Every token given up was counted, so no count is lowered or freed twice.
  predicate RecyclesLive(cells: seq<Cell>, deps: seq<nat>)
    decreases |deps|
  {
    deps == [] ||
    (var d := deps[|deps| - 1];
     d < |cells| && !cells[d].freed && RecyclesLive(RecycleOne(cells, d), deps[..|deps| - 1]))
  }

  ghost predicate CountsAre(cells: seq<Cell>, tokens: nat -> nat) {
    forall d: nat :: CountRight(cells, d, tokens(d))
  }

  lemma {:induction false} RecycleCounts(cells: seq<Cell>, deps: seq<nat>, before: nat -> nat, after: nat -> nat)
    requires CountsAre(cells, before)
    requires forall d: nat :: before(d) == after(d) + Occurs(deps, d)
    ensures RecyclesLive(cells, deps)
    ensures CountsAre(Recycle(cells, deps), after)
    decreases |deps|
  {
    if deps == [] {
      forall d: nat
        ensures CountRight(cells, d, after(d))
      {
        assert before(d) == after(d) + Occurs(deps, d) && CountRight(cells, d, before(d));
      }
    } else {
      var x, rest := deps[|deps| - 1], deps[..|deps| - 1];
      var middle := (d: nat) => after(d) + Occurs(rest, d);
      assert before(x) == after(x) + Occurs(deps, x) && CountRight(cells, x, before(x));
      forall d: nat
        ensures CountRight(RecycleOne(cells, x), d, middle(d))
      {
        assert before(d) == after(d) + Occurs(deps, d) && CountRight(cells, d, before(d));
      }
      RecycleCounts(RecycleOne(cells, x), rest, middle, after);
    }
  }

  lemma LoadedCounted(g: Graph, s: State, P: int, b: nat, lost: nat -> nat)
    requires Inv(g, s, P) && CountedBut(g, s, lost)
    requires b < |s.blocks| && BlockOk(s, b) && s.blocks[b].inflight && StageOf(s, b).Loading?
    ensures Sized(g, Loaded(s, b)) && CountedBut(g, Loaded(s, b), lost)
    ensures RecyclesLive(s.cells, StageOf(s, b).deps)
  {
    LoadedKeepsInv(g, s, P, b);
    var a := s.blocks[b].actor;
    var k := FiringOf(s.fire[a], b);
    var deps := s.fire[a][k].stage.deps;
    var t := Loaded(s, b);
    hide Inv;
    assert |s.fire| == |g.actors|;
    forall d: nat
      ensures Shares(g, s, d) == Shares(g, t, d) + Occurs(deps, d)
    {
      RestageShares(g, s, t, a, k, d);
    }
    hide Shares, Occurs, Recycle;
    RecycledCounts(g, s, t, deps, lost);
  }

  lemma RecycledCounts(g: Graph, s: State, t: State, deps: seq<nat>, lost: nat -> nat)
    requires |s.fire| == |g.actors| == |t.fire| && CountedBut(g, s, lost) && t.cells == Recycle(s.cells, deps)
    requires forall d: nat :: Shares(g, s, d) == Shares(g, t, d) + Occurs(deps, d)
    ensures CountedBut(g, t, lost) && RecyclesLive(s.cells, deps)
  {
    var before: nat -> nat := d => Shares(g, s, d) + lost(d);
    var after: nat -> nat := d => Shares(g, t, d) + lost(d);
    hide Shares, Occurs, Recycle, RecyclesLive;
    assert CountsAre(s.cells, before);
    RecycleCounts(s.cells, deps, before, after);
    forall d: nat
      ensures CountRight(t.cells, d, Shares(g, t, d) + lost(d))
    {
      assert CountRight(t.cells, d, after(d));
    }
  }

  // Fresh cells, one per result, start with one share for every edge of the row.
  lemma {:induction false} FreshResults(rows: seq<seq<nat>>, results: seq<nat>, base: nat, d: nat)
    requires |results| <= |rows| && forall i :: 0 <= i < |results| ==> results[i] == base + i
    ensures InResults(rows, results, d) == if base <= d < base + |results| then |rows[d - base]| else 0
    decreases |rows|
  {
    if results != [] {
      assert forall i :: 0 <= i < |results[1..]| ==> results[1..][i] == results[i + 1];
      FreshResults(rows[1..], results[1..], base + 1, d);
    }
  }

  lemma ComputedCounted(g: Graph, s: State, P: int, b: nat, ret: nat, lost: nat -> nat)
    requires Inv(g, s, P) && CountedBut(g, s, lost)
    requires b < |s.blocks| && BlockOk(s, b) && s.blocks[b].inflight && StageOf(s, b).Running?
    ensures Sized(g, Computed(g, s, b, ret)) && CountedBut(g, Computed(g, s, b, ret), lost)
  {
    ComputedKeepsInv(g, s, P, b, ret);
    var a := s.blocks[b].actor;
    var k := FiringOf(s.fire[a], b);
    var rows := g.actors[a].outs;
    var t := Computed(g, s, b, ret);
    var results := t.fire[a][k].stage.results;
    assert WellFormedActor(g, a);
    hide Inv;
    assert |s.fire| == |g.actors|;
    forall d: nat
      ensures CountRight(t.cells, d, Shares(g, t, d) + lost(d))
    {
      assert CountRight(s.cells, d, Shares(g, s, d) + lost(d));
      RestageShares(g, s, t, a, k, d);
      FreshResults(rows, results, |s.cells|, d);
      hide Shares, InResults;
      if |s.cells| <= d < |t.cells| { assert rows[d - |s.cells|] != []; }
    }
  }

  lemma ArriveShares(g: Graph, s: State, P: int, b: nat, d: nat)
    requires Inv(g, s, P)
    requires b < |s.blocks| && BlockOk(s, b) && s.blocks[b].inflight && StageOf(s, b).Returning?
    ensures Sized(g, Arrive(s, b)) && Shares(g, Arrive(s, b), d) == Shares(g, s, d)
  {
    ArriveFlow(g, s, P, b);
    var a := s.blocks[b].actor;
    RestageShares(g, s, Arrive(s, b), a, FiringOf(s.fire[a], b), d);
  }

  lemma ReleaseShares(g: Graph, s: State, P: int, a: nat, d: nat)
    requires Flow(g, s, P) && a < |g.actors| && MayRelease(s, a)
    ensures Shares(g, Release(g, s, a), d) == Shares(g, s, d)
  {
    var t, rows := Release(g, s, a), g.actors[a].outs;
    var results := s.fire[a][0].stage.results;
    ActorRowsIn(g, s, a);
    forall e | 0 <= e < |s.fifos| && InRow(rows, e)
      ensures s.fifos[e].rptr <= s.fifos[e].wptr < 8
    {
      InsAreSinks(g, a, e);
      ReleaseEdge(g, s, P, a, e);
      assert EdgeFlow(g, s, P, e);
    }
    assert t.fifos == PutResults(s.fifos, rows, results) && t.fire == s.fire[a := s.fire[a][1..]] && t.ready == s.ready;
    hide Flow, Release;
    PutResultsTokens(s.fifos, rows, results, d);
    FireTail(rows, s.fire[a], d);
    FiresUpdate(g, s.fire, a, t.fire[a], d);
  }

  lemma {:induction false} ReleaseAllShares(g: Graph, s: State, P: int, a: nat, d: nat)
    requires Flow(g, s, P) && a < |g.actors|
    ensures Shares(g, ReleaseAll(g, s, a), d) == Shares(g, s, d) && ReleaseAll(g, s, a).cells == s.cells
    decreases |s.fire[a]|
  {
    if MayRelease(s, a) {
      ReleaseFlow(g, s, P, a);
      ReleaseShares(g, s, P, a, d);
      hide Flow, Shares;
      ReleaseAllShares(g, Release(g, s, a), P, a, d);
    }
  }

  // What an event drops, in the sweep that a delivery in order causes.
  ghost function NextDrops(g: Graph, s: State, P: int, ev: Event, d: nat): nat
    requires Inv(g, s, P) && Enabled(s, ev)
  {
    if ev.TransferDone? && s.blocks[ev.block].result then
      assert BlockOk(s, ev.block);
      ResultFlag(g, s, ev.block);
      ResultDoneDrops(g, s, P, ev.block, d)
    else 0
  }

  ghost function ResultDoneDrops(g: Graph, s: State, P: int, b: nat, d: nat): nat
    requires Inv(g, s, P) && b < |s.blocks| && BlockOk(s, b) && s.blocks[b].inflight && StageOf(s, b).Returning?
  {
    DeliverKeeps(g, s, P, b);
    var a := s.blocks[b].actor;
    if s.fire[a][0].block != b then 0 else SweepDrops(g, ReleaseAll(g, Arrive(s, b), a), P, 0, d)
  }

  // Delivering a result and sweeping turn tokens-to-be into tokens, and move or
  // drop them.
  lemma ResultDoneShares(g: Graph, s: State, P: int, b: nat, d: nat)
    requires Inv(g, s, P)
    requires b < |s.blocks| && BlockOk(s, b) && s.blocks[b].inflight && StageOf(s, b).Returning?
    ensures
      var t := ResultDone(g, s, P, b);
      Sized(g, t) && Shares(g, t, d) + ResultDoneDrops(g, s, P, b, d) == Shares(g, s, d) && t.cells == s.cells
  {
    var a, t := s.blocks[b].actor, Arrive(s, b);
    ArriveShares(g, s, P, b, d);
    DeliverKeeps(g, s, P, b);
    ResultDoneKeepsInv(g, s, P, b);
    hide Flow, Shares;
    ReleaseAllShares(g, t, P, a, d);
    SweepShares(g, ReleaseAll(g, t, a), P, 0, d);
    SweepKeepsRest(g, ReleaseAll(g, t, a), P, 0);
  }

  lemma SharesMoved(g: Graph, s: State, t: State, lost: nat -> nat, more: nat -> nat)
    requires |s.fire| == |g.actors| == |t.fire| && CountedBut(g, s, lost) && t.cells == s.cells
    requires forall d: nat :: Shares(g, t, d) + more(d) == Shares(g, s, d) + lost(d)
    ensures CountedBut(g, t, more)
  {
    forall d: nat
      ensures CountRight(t.cells, d, Shares(g, t, d) + more(d))
    {
      assert CountRight(s.cells, d, Shares(g, s, d) + lost(d));
    }
  }

  // Every event keeps all counts right, up to what it drops.
  lemma NextCounted(g: Graph, s: State, P: int, ev: Event, lost: nat -> nat, more: nat -> nat)
    requires Inv(g, s, P) && Enabled(s, ev) && CountedBut(g, s, lost)
    requires forall d: nat :: more(d) == lost(d) + NextDrops(g, s, P, ev, d)
    ensures Sized(g, Next(g, s, P, ev)) && CountedBut(g, Next(g, s, P, ev), more)
  {
    assert Sized(g, s);
    NextKeepsInv(g, s, P, ev);
    hide Flow, Quiet, Shares;
    match ev
    case Interrupt(b, ret) =>
      assert BlockOk(s, b);
      if s.blocks[b].inflight {
        ComputedCounted(g, s, P, b, ret, lost);
        SharesMoved(g, Computed(g, s, b, ret), Computed(g, s, b, ret), lost, more);
      } else {
        ReportIdleShares(g, s, b);
        SharesMoved(g, s, ReportIdle(s, b), lost, more);
      }
    case Check =>
      forall d: nat
        ensures Shares(g, HandOut(s), d) == Shares(g, s, d)
      {
        HandOutShares(g, s, P, d);
      }
      SharesMoved(g, s, HandOut(s), lost, more);
    case TransferDone(b) =>
      assert BlockOk(s, b);
      ResultFlag(g, s, b);
      if s.blocks[b].result {
        DeliveryCounted(g, s, P, b, lost, more);
      } else {
        LoadedCounted(g, s, P, b, lost);
        SharesMoved(g, Loaded(s, b), Loaded(s, b), lost, more);
      }
  }

  lemma DeliveryCounted(g: Graph, s: State, P: int, b: nat, lost: nat -> nat, more: nat -> nat)
    requires Inv(g, s, P) && CountedBut(g, s, lost)
    requires b < |s.blocks| && BlockOk(s, b) && s.blocks[b].inflight && StageOf(s, b).Returning?
    requires forall d: nat :: more(d) == lost(d) + ResultDoneDrops(g, s, P, b, d)
    ensures Sized(g, ResultDone(g, s, P, b)) && CountedBut(g, ResultDone(g, s, P, b), more)
  {
    var t := ResultDone(g, s, P, b);
    ResultDoneShares(g, s, P, b, 0);
    forall d: nat
      ensures Shares(g, t, d) + more(d) == Shares(g, s, d) + lost(d)
    {
      ResultDoneShares(g, s, P, b, d);
    }
    hide Inv, Shares, ResultDone, ResultDoneDrops;
    SharesMoved(g, s, t, lost, more);
  }

  lemma ReportIdleShares(g: Graph, s: State, b: nat)
    requires b < |s.blocks| && |s.fire| == |g.actors|
    ensures forall d: nat :: Shares(g, ReportIdle(s, b), d) == Shares(g, s, d)
  {
  }

  // -------------------------------------------------------------------- runs

  lemma {:induction false} PacketTokens(ts: seq<Token>, d: nat)
    requires forall k :: 0 <= k < |ts| ==> ts[k] == Real(k)
    ensures TokensFor(ts, d) == if d < |ts| then 1 else 0
    decreases |ts|
  {
    if ts != [] { PacketTokens(ts[..|ts| - 1], d); }
  }

  // A state with nothing but tokens in the root's input.
  lemma InputShares(g: Graph, s: State, d: nat)
    requires |s.fire| == |g.actors| && s.ready == [] && forall a :: 0 <= a < |s.fire| ==> s.fire[a] == []
    requires |s.fifos| > 0 && forall e :: 1 <= e < |s.fifos| ==> s.fifos[e].rptr == s.fifos[e].wptr
    ensures Shares(g, s, d) == InFifo(s.fifos[0], d)
  {
    FirstFifo(s.fifos, d);
    OnlyInFifos(g, s, d);
  }

  lemma FirstFifo(fs: seq<Fifo<Token>>, d: nat)
    requires |fs| > 0 && forall e :: 1 <= e < |fs| ==> fs[e].rptr == fs[e].wptr
    ensures InFifos(fs, d) == InFifo(fs[0], d)
  {
    var ns := seq(|fs|, e requires 0 <= e < |fs| => InFifo(fs[e], d));
    TotalOne(ns, 0);
    assert Total(ns) == InFifos(fs, d);
  }

  lemma NoFirings(g: Graph, fire: seq<seq<Firing>>, d: nat)
    requires |fire| == |g.actors| && forall a :: 0 <= a < |fire| ==> fire[a] == []
    ensures InFirings(g, fire, d) == 0
  {
    var ns := seq(|fire|, a requires 0 <= a < |fire| => InFireList(g.actors[a].outs, fire[a], d));
    TotalZero(ns);
    assert Total(ns) == InFirings(g, fire, d);
  }

  lemma TotalOne(ns: seq<nat>, i: nat)
    requires i < |ns| && forall j :: 0 <= j < |ns| && j != i ==> ns[j] == 0
    ensures Total(ns) == ns[i]
  {
    TotalUpdate(ns, i, 0);
    TotalZero(ns[i := 0]);
  }

  lemma OnlyInFifos(g: Graph, s: State, d: nat)
    requires |s.fire| == |g.actors| && s.ready == [] && forall a :: 0 <= a < |s.fire| ==> s.fire[a] == []
    ensures Shares(g, s, d) == InFifos(s.fifos, d)
  {
    NoFirings(g, s.fire, d);
  }

  lemma InjectedCounted(g: Graph, fs: seq<Fifo<Token>>, blocks: nat, packets: seq<int>)
    requires WellFormed(g) && FreshFifos(g, fs)
    ensures |Inject(Created(g, fs, blocks), packets).fire| == |g.actors| && Counted(g, Inject(Created(g, fs, blocks), packets))
  {
    var c := Created(g, fs, blocks);
    var s := Inject(c, packets);
    InjectKeepsEight(c, packets, []);
    hide WellFormed, Inject;
    var ts := s.fifos[0].cells[0..s.fifos[0].wptr];
    forall d: nat
      ensures CountRight(s.cells, d, Shares(g, s, d))
    {
      InputShares(g, s, d);
      PacketTokens(ts, d);
    }
  }

  // A run of the whole program.
  ghost predicate RunFrom(g: Graph, fs: seq<Fifo<Token>>, blocks: nat, packets: seq<int>, ss: seq<State>, evs: seq<Event>) {
    && WellFormed(g) && FreshFifos(g, fs)
    && Run(g, Accepted(packets), ss, evs) && ss[0] == Start(g, fs, blocks, packets)
  }

  // What the first sweep and the first k events drop.
  ghost function StartDrops(g: Graph, fs: seq<Fifo<Token>>, blocks: nat, packets: seq<int>, d: nat): nat
    requires WellFormed(g) && FreshFifos(g, fs)
  {
    InjectedFlow(g, fs, blocks, packets);
    SweepDrops(g, Inject(Created(g, fs, blocks), packets), Accepted(packets), 0, d)
  }

  ghost function RunDrops(
    g: Graph, fs: seq<Fifo<Token>>, blocks: nat, packets: seq<int>, ss: seq<State>, evs: seq<Event>, k: nat, d: nat): nat
    requires RunFrom(g, fs, blocks, packets, ss, evs) && k < |ss|
  {
    if k == 0 then StartDrops(g, fs, blocks, packets, d)
    else
      RunDrops(g, fs, blocks, packets, ss, evs, k - 1, d) + NextDrops(g, ss[k - 1], Accepted(packets), evs[k - 1], d)
  }

  lemma StartCounted(g: Graph, fs: seq<Fifo<Token>>, blocks: nat, packets: seq<int>, lost: nat -> nat)
    requires WellFormed(g) && FreshFifos(g, fs)
    requires forall d: nat :: lost(d) == StartDrops(g, fs, blocks, packets, d)
    ensures Sized(g, Start(g, fs, blocks, packets)) && CountedBut(g, Start(g, fs, blocks, packets), lost)
  {
    var s, P := Inject(Created(g, fs, blocks), packets), Accepted(packets);
    InjectedFlow(g, fs, blocks, packets);
    InjectedCounted(g, fs, blocks, packets);
    hide Flow, Shares;
    forall d: nat
      ensures Shares(g, Sweep(g, s, P), d) + lost(d) == Shares(g, s, d)
    {
      SweepShares(g, s, P, 0, d);
    }
    SweepKeepsRest(g, s, P, 0);
    StartInv(g, fs, blocks, packets);
    SharesMoved(g, s, Sweep(g, s, P), Nothing, lost);
  }

  ghost predicate CountsInRun(
    g: Graph, fs: seq<Fifo<Token>>, blocks: nat, packets: seq<int>, ss: seq<State>, evs: seq<Event>, k: nat)
    requires RunFrom(g, fs, blocks, packets, ss, evs) && k < |ss| && |ss[k].fire| == |g.actors|
  {
    forall d: nat :: CountRight(ss[k].cells, d, Shares(g, ss[k], d) + RunDrops(g, fs, blocks, packets, ss, evs, k, d))
  }

  lemma AsLost(
    g: Graph, fs: seq<Fifo<Token>>, blocks: nat, packets: seq<int>, ss: seq<State>, evs: seq<Event>, k: nat, lost: nat -> nat)
    requires RunFrom(g, fs, blocks, packets, ss, evs) && k < |ss| && |ss[k].fire| == |g.actors|
    requires forall d: nat :: lost(d) == RunDrops(g, fs, blocks, packets, ss, evs, k, d)
    ensures CountsInRun(g, fs, blocks, packets, ss, evs, k) <==> CountedBut(g, ss[k], lost)
  {
    hide RunFrom, RunDrops, Shares;
    if CountsInRun(g, fs, blocks, packets, ss, evs, k) {
      forall d: nat
        ensures CountRight(ss[k].cells, d, Shares(g, ss[k], d) + lost(d))
      {
        assert lost(d) == RunDrops(g, fs, blocks, packets, ss, evs, k, d);
      }
    }
    if CountedBut(g, ss[k], lost) {
      forall d: nat
        ensures CountRight(ss[k].cells, d, Shares(g, ss[k], d) + RunDrops(g, fs, blocks, packets, ss, evs, k, d))
      {
        assert lost(d) == RunDrops(g, fs, blocks, packets, ss, evs, k, d);
        assert CountRight(ss[k].cells, d, Shares(g, ss[k], d) + lost(d));
      }
    }
  }

  // In every reachable state of every graph the count of each data cell is the
  // number of its tokens: those in FIFOs, in ready entries, in loads under way,
  // still to come from results under way, and those dropped by pseudo tasks.  It
  // is freed exactly when there is none of all these.
  lemma {:induction false} CountsAreTokens(
    g: Graph, fs: seq<Fifo<Token>>, blocks: nat, packets: seq<int>, ss: seq<State>, evs: seq<Event>, k: nat)
    requires RunFrom(g, fs, blocks, packets, ss, evs) && k < |ss|
    ensures Inv(g, ss[k], Accepted(packets)) && Sized(g, ss[k]) && CountsInRun(g, fs, blocks, packets, ss, evs, k)
  {
    RunFromInv(g, fs, blocks, packets, ss, evs, k);
    if k == 0 {
      CountsAtStart(g, fs, blocks, packets, ss, evs);
    } else {
      hide Inv, CountsInRun, RunFrom;
      CountsAreTokens(g, fs, blocks, packets, ss, evs, k - 1);
      CountsStep(g, fs, blocks, packets, ss, evs, k - 1);
    }
  }

  lemma CountsAtStart(g: Graph, fs: seq<Fifo<Token>>, blocks: nat, packets: seq<int>, ss: seq<State>, evs: seq<Event>)
    requires RunFrom(g, fs, blocks, packets, ss, evs)
    ensures |ss| > 0 && Sized(g, ss[0]) && CountsInRun(g, fs, blocks, packets, ss, evs, 0)
  {
    var more := (d: nat) => RunDrops(g, fs, blocks, packets, ss, evs, 0, d);
    StartCounted(g, fs, blocks, packets, more);
    hide RunFrom, RunDrops, CountedBut, CountsInRun;
    AsLost(g, fs, blocks, packets, ss, evs, 0, more);
  }

  lemma CountsStep(g: Graph, fs: seq<Fifo<Token>>, blocks: nat, packets: seq<int>, ss: seq<State>, evs: seq<Event>, k: nat)
    requires RunFrom(g, fs, blocks, packets, ss, evs) && k < |evs| && k + 1 < |ss|
    requires Sized(g, ss[k]) && CountsInRun(g, fs, blocks, packets, ss, evs, k)
    ensures Sized(g, ss[k + 1]) && CountsInRun(g, fs, blocks, packets, ss, evs, k + 1)
  {
    RunFromStep(g, fs, blocks, packets, ss, evs, k);
    var lost := (d: nat) => RunDrops(g, fs, blocks, packets, ss, evs, k, d);
    var more := (d: nat) => RunDrops(g, fs, blocks, packets, ss, evs, k + 1, d);
    forall d: nat
      ensures more(d) == lost(d) + NextDrops(g, ss[k], Accepted(packets), evs[k], d)
    {
    }
    hide RunFrom, RunDrops, CountedBut, CountsInRun, Inv, Next, Enabled, NextDrops;
    AsLost(g, fs, blocks, packets, ss, evs, k, lost);
    NextCounted(g, ss[k], Accepted(packets), evs[k], lost, more);
    AsLost(g, fs, blocks, packets, ss, evs, k + 1, more);
  }

  lemma RunFromInv(
    g: Graph, fs: seq<Fifo<Token>>, blocks: nat, packets: seq<int>, ss: seq<State>, evs: seq<Event>, k: nat)
    requires RunFrom(g, fs, blocks, packets, ss, evs) && k < |ss|
    ensures Inv(g, ss[k], Accepted(packets)) && Sized(g, ss[k])
  {
    StartInv(g, fs, blocks, packets);
    RunKeepsInv(g, Accepted(packets), ss, evs, k);
  }

  lemma RunFromStep(
    g: Graph, fs: seq<Fifo<Token>>, blocks: nat, packets: seq<int>, ss: seq<State>, evs: seq<Event>, k: nat)
    requires RunFrom(g, fs, blocks, packets, ss, evs) && k < |evs|
    ensures k + 1 < |ss| && Inv(g, ss[k], Accepted(packets)) && Enabled(ss[k], evs[k])
    ensures ss[k + 1] == Next(g, ss[k], Accepted(packets), evs[k])
  {
  }

  // The same for one cell.
  lemma CountIsTokens(
    g: Graph, fs: seq<Fifo<Token>>, blocks: nat, packets: seq<int>, ss: seq<State>, evs: seq<Event>, k: nat, d: nat)
    requires RunFrom(g, fs, blocks, packets, ss, evs) && k < |ss|
    ensures Inv(g, ss[k], Accepted(packets)) && |ss[k].fire| == |g.actors|
    ensures CountRight(ss[k].cells, d, Shares(g, ss[k], d) + RunDrops(g, fs, blocks, packets, ss, evs, k, d))
  {
    hide RunFrom, Shares, RunDrops;
    CountsAreTokens(g, fs, blocks, packets, ss, evs, k);
  }

  // A load never reads or gives up data that is already freed.
  lemma LoadsAreLive(
    g: Graph, fs: seq<Fifo<Token>>, blocks: nat, packets: seq<int>, ss: seq<State>, evs: seq<Event>, k: nat, b: nat)
    requires RunFrom(g, fs, blocks, packets, ss, evs) && k < |ss|
    requires b < |ss[k].blocks| && BlockOk(ss[k], b) && ss[k].blocks[b].inflight && StageOf(ss[k], b).Loading?
    ensures RecyclesLive(ss[k].cells, StageOf(ss[k], b).deps)
  {
    CountsAreTokens(g, fs, blocks, packets, ss, evs, k);
    hide CountsInRun, CountedBut, RunFrom, Inv, RunDrops;
    var lost := (d: nat) => RunDrops(g, fs, blocks, packets, ss, evs, k, d);
    AsLost(g, fs, blocks, packets, ss, evs, k, lost);
    LoadedCounted(g, ss[k], Accepted(packets), b, lost);
  }

  // A cell is freed by the one step that uses up its last token, which is a
  // load, and it stays freed; one that lost a token is never freed.
  lemma FreedWithLastToken(
    g: Graph, fs: seq<Fifo<Token>>, blocks: nat, packets: seq<int>, ss: seq<State>, evs: seq<Event>, k: nat, d: nat)
    requires RunFrom(g, fs, blocks, packets, ss, evs) && k < |evs| && d < |ss[k].cells|
    ensures d < |ss[k + 1].cells| && |ss[k].fire| == |g.actors| == |ss[k + 1].fire|
    ensures ss[k].cells[d].freed ==> ss[k + 1].cells[d].freed
    ensures !ss[k].cells[d].freed && ss[k + 1].cells[d].freed
      <==> Shares(g, ss[k], d) > 0 && Shares(g, ss[k + 1], d) == 0 && RunDrops(g, fs, blocks, packets, ss, evs, k + 1, d) == 0
    ensures !ss[k].cells[d].freed && ss[k + 1].cells[d].freed ==>
      evs[k].TransferDone? && evs[k].block < |ss[k].blocks| && !ss[k].blocks[evs[k].block].result
  {
    hide RunFrom, Shares, RunDrops;
    RunFromStep(g, fs, blocks, packets, ss, evs, k);
    CountIsTokens(g, fs, blocks, packets, ss, evs, k, d);
    CountIsTokens(g, fs, blocks, packets, ss, evs, k + 1, d);
    DropsGrow(g, fs, blocks, packets, ss, evs, k, d);
    hide Inv, Next, Enabled;
    OnlyLoadsFree(g, ss[k], Accepted(packets), evs[k], d);
  }

  lemma DropsGrow(
    g: Graph, fs: seq<Fifo<Token>>, blocks: nat, packets: seq<int>, ss: seq<State>, evs: seq<Event>, k: nat, d: nat)
    requires RunFrom(g, fs, blocks, packets, ss, evs) && k < |evs|
    ensures k + 1 < |ss|
    ensures RunDrops(g, fs, blocks, packets, ss, evs, k, d) <= RunDrops(g, fs, blocks, packets, ss, evs, k + 1, d)
  {
    RunFromStep(g, fs, blocks, packets, ss, evs, k);
  }

  // A cell that lost a token is not freed, however the run goes on.
  lemma {:induction false} DroppedStays(
    g: Graph, fs: seq<Fifo<Token>>, blocks: nat, packets: seq<int>, ss: seq<State>, evs: seq<Event>, j: nat, k: nat, d: nat)
    requires RunFrom(g, fs, blocks, packets, ss, evs) && j <= k < |ss|
    requires RunDrops(g, fs, blocks, packets, ss, evs, j, d) > 0
    ensures RunDrops(g, fs, blocks, packets, ss, evs, k, d) > 0
    ensures d < |ss[k].cells| && !ss[k].cells[d].freed
  {
    hide RunFrom, RunDrops, Shares;
    CountIsTokens(g, fs, blocks, packets, ss, evs, k, d);
    if j < k {
      RunFromLength(g, fs, blocks, packets, ss, evs);
      DroppedStays(g, fs, blocks, packets, ss, evs, j, k - 1, d);
      DropsGrow(g, fs, blocks, packets, ss, evs, k - 1, d);
    }
  }

  lemma RunFromLength(g: Graph, fs: seq<Fifo<Token>>, blocks: nat, packets: seq<int>, ss: seq<State>, evs: seq<Event>)
    requires RunFrom(g, fs, blocks, packets, ss, evs)
    ensures |ss| == |evs| + 1
  {
  }

  lemma {:induction false} RecycleKeepsFreed(cells: seq<Cell>, deps: seq<nat>, d: nat)
    requires d < |cells| && cells[d].freed
    ensures Recycle(cells, deps)[d].freed
    decreases |deps|
  {
    if deps != [] { RecycleKeepsFreed(RecycleOne(cells, deps[|deps| - 1]), deps[..|deps| - 1], d); }
  }

  lemma OnlyLoadsFree(g: Graph, s: State, P: int, ev: Event, d: nat)
    requires Inv(g, s, P) && Enabled(s, ev) && d < |s.cells|
    ensures
      var t := Next(g, s, P, ev);
      && d < |t.cells| && (s.cells[d].freed ==> t.cells[d].freed)
      && (t.cells[d].freed == s.cells[d].freed || (ev.TransferDone? && !s.blocks[ev.block].result))
  {
    if ev.TransferDone? {
      var b := ev.block;
      assert BlockOk(s, b);
      ResultFlag(g, s, b);
      if s.blocks[b].result {
        ResultDoneShares(g, s, P, b, 0);
      } else if s.cells[d].freed {
        RecycleKeepsFreed(s.cells, StageOf(s, b).deps, d);
      }
    }
  }

  // Token k of edge e points at d.
  predicate OnEdge(s: State, e: nat, P: int, k: nat, d: nat)
    requires e < |s.fifos|
  {
    k < P && k < |s.fifos[e].cells| && s.fifos[e].cells[k] == Real(d)
  }

  // A result that no actor reads points at d.
  ghost predicate OnOutput(g: Graph, s: State, P: int, d: nat) {
    exists e: nat, k: nat :: e < |s.fifos| && e < |g.snk| && g.snk[e] < 0 && OnEdge(s, e, P, k, d)
  }

  lemma {:induction false} TokenCounts(ts: seq<Token>, i: nat, d: nat)
    requires i < |ts| && ts[i] == Real(d)
    ensures TokensFor(ts, d) >= 1
    decreases |ts|
  {
    if i < |ts| - 1 { TokenCounts(ts[..|ts| - 1], i, d); }
  }

  lemma {:induction false} SomeToken(ts: seq<Token>, d: nat) returns (i: nat)
    requires TokensFor(ts, d) > 0
    ensures i < |ts| && ts[i] == Real(d)
    decreases |ts|
  {
    i := |ts| - 1;
    if ts[i] != Real(d) { i := SomeToken(ts[..|ts| - 1], d); }
  }

  lemma SomeFifo(fs: seq<Fifo<Token>>, d: nat) returns (e: nat)
    requires InFifos(fs, d) > 0
    ensures e < |fs| && InFifo(fs[e], d) > 0
  {
    var ns := seq(|fs|, e requires 0 <= e < |fs| => InFifo(fs[e], d));
    if forall e :: 0 <= e < |ns| ==> ns[e] == 0 { TotalZero(ns); }
    e :| 0 <= e < |ns| && ns[e] != 0;
  }

  lemma FifoHas(fs: seq<Fifo<Token>>, e: nat, d: nat)
    requires e < |fs|
    ensures InFifo(fs[e], d) <= InFifos(fs, d)
  {
    TotalHas(seq(|fs|, i requires 0 <= i < |fs| => InFifo(fs[i], d)), e);
  }

  lemma FinalPointers(g: Graph, s: State, P: int, e: nat)
    requires Inv(g, s, P) && Stuck(s) && |s.blocks| > 0 && e < |s.fifos|
    ensures 0 <= P <= 8 && |s.fifos[e].cells| == 9 && s.fifos[e].wptr == P
    ensures s.fifos[e].rptr == if g.snk[e] < 0 then 0 else P
  {
    Completion(g, s, P);
    assert EdgeFlow(g, s, P, e);
  }

  lemma FinalTokens(g: Graph, s: State, P: int, d: nat)
    requires Inv(g, s, P) && Stuck(s) && |s.blocks| > 0
    ensures InFifos(s.fifos, d) > 0 <==> OnOutput(g, s, P, d)
  {
    if OnOutput(g, s, P, d) {
      var e: nat, k: nat :| e < |s.fifos| && e < |g.snk| && g.snk[e] < 0 && OnEdge(s, e, P, k, d);
      FinalPointers(g, s, P, e);
      hide Inv, Stuck;
      TokenCounts(s.fifos[e].cells[0..P], k, d);
      FifoHas(s.fifos, e, d);
    }
    if InFifos(s.fifos, d) > 0 {
      var e := SomeFifo(s.fifos, d);
      FinalPointers(g, s, P, e);
      hide Inv, Stuck;
      var f := s.fifos[e];
      var k := SomeToken(f.cells[f.rptr..f.wptr], d);
      assert OnEdge(s, e, P, f.rptr + k, d);
    }
  }

  // When nothing is left to happen, the data still allocated is exactly what
  // waits on edges that no actor reads, and what pseudo tasks dropped a token of.
  lemma OnlyOutputsRemain(
    g: Graph, fs: seq<Fifo<Token>>, blocks: nat, packets: seq<int>, ss: seq<State>, evs: seq<Event>, d: nat)
    requires RunFrom(g, fs, blocks, packets, ss, evs) && blocks > 0
    requires |ss| == |evs| + 1 && Finished(ss[|evs|]) && d < |ss[|evs|].cells|
    ensures !ss[|evs|].cells[d].freed <==>
      OnOutput(g, ss[|evs|], Accepted(packets), d) || RunDrops(g, fs, blocks, packets, ss, evs, |evs|, d) > 0
  {
    hide *;
    RunFromBlocks(g, fs, blocks, packets, ss, evs);
    CountIsTokens(g, fs, blocks, packets, ss, evs, |evs|, d);
    FreedIff(ss[|evs|].cells, d, Shares(g, ss[|evs|], d), RunDrops(g, fs, blocks, packets, ss, evs, |evs|, d));
    OnlyFifosAtEnd(g, ss[|evs|], Accepted(packets), d);
  }

  ghost predicate Finished(s: State) {
    (forall b :: 0 <= b < |s.blocks| ==> BlockOk(s, b)) && Stuck(s)
  }

  lemma RunFromBlocks(g: Graph, fs: seq<Fifo<Token>>, blocks: nat, packets: seq<int>, ss: seq<State>, evs: seq<Event>)
    requires RunFrom(g, fs, blocks, packets, ss, evs)
    ensures |ss| == |evs| + 1 && |ss[|evs|].blocks| == blocks
  {
    StartBlocks(g, fs, blocks, packets);
    BlockCount(g, Accepted(packets), ss, evs, |evs|);
  }

  lemma FreedIff(cells: seq<Cell>, d: nat, tokens: nat, lost: nat)
    requires d < |cells| && CountRight(cells, d, tokens + lost)
    ensures !cells[d].freed <==> tokens > 0 || lost > 0
  {
  }

  lemma OnlyFifosAtEnd(g: Graph, s: State, P: int, d: nat)
    requires Inv(g, s, P) && Finished(s) && |s.blocks| > 0
    ensures |s.fire| == |g.actors| && (Shares(g, s, d) > 0 <==> OnOutput(g, s, P, d))
  {
    Completion(g, s, P);
    FinalTokens(g, s, P, d);
    hide Inv, Stuck, Shares;
    OnlyInFifos(g, s, d);
  }

  // ------------------------------------------------------------ dropped tokens

  // Making an actor ready keeps the counts right, except for a pseudo task with a
  // real token among its inputs: the data of that token is never freed.
  lemma PseudoKeepsCountsIff(g: Graph, s: State, P: int, a: nat)
    requires Flow(g, s, P) && Counted(g, s) && a < |g.actors| && ActorReady(g, s, a)
    ensures Shaped(g, Consume(g, s, a))
    ensures Counted(g, Consume(g, s, a)) <==> !PseudoFirst(g, s, a) || HeadsOf(g, s, a) == []
  {
    var t, heads := Consume(g, s, a), HeadsOf(g, s, a);
    forall d: nat
      ensures Shares(g, t, d) + Dropped(g, s, a, d) == Shares(g, s, d)
      ensures CountRight(s.cells, d, Shares(g, s, d)) && t.cells == s.cells
    {
      ConsumeShares(g, s, P, a, d);
      assert CountRight(s.cells, d, Shares(g, s, d) + Nothing(d));
    }
    hide Flow, Shares, Consume, HeadsOf, ActorReady;
    if PseudoFirst(g, s, a) && heads != [] {
      var x := heads[|heads| - 1];
      assert Dropped(g, s, a, x) == Occurs(heads, x) > 0;
      assert !CountRight(t.cells, x, Shares(g, t, x) + Nothing(x));
    } else {
      forall d: nat
        ensures CountRight(t.cells, d, Shares(g, t, d) + Nothing(d))
      {
        assert Dropped(g, s, a, d) == 0;
      }
    }
  }

  // In a static graph there are no pseudo tokens, so nothing is ever dropped.
  lemma {:induction false} SweepActorDropsNone(g: Graph, packets: seq<int>, s: State, P: int, a: nat, d: nat)
    requires Flow(g, s, P) && Faithful(g, packets, s) && a < |g.actors|
    ensures SweepActorDrops(g, s, P, a, d) == 0
    decreases P - Consumed(g, s, a)
  {
    FlowBounds(g, s, P, a);
    if FireCheck(g, s, a) {
      ConsumeFaithful(g, packets, s, P, a);
      ConsumeTakes(g, packets, s, P, a);
      ConsumeActor(g, s, P, a, a);
      hide Flow, Faithful, ActorReady, FireCheck, PseudoFirst;
      SweepActorDropsNone(g, packets, Consume(g, s, a), P, a, d);
    }
  }

  lemma {:induction false} SweepDropsNone(g: Graph, packets: seq<int>, s: State, P: int, a: nat, d: nat)
    requires Flow(g, s, P) && Faithful(g, packets, s) && a <= |g.actors|
    ensures SweepDrops(g, s, P, a, d) == 0
    decreases |g.actors| - a
  {
    if a < |g.actors| {
      hide Flow, Faithful, SweepActor, SweepActorDrops;
      SweepActorFaithful(g, packets, s, P, a);
      SweepActorDropsNone(g, packets, s, P, a, d);
      SweepDropsNone(g, packets, SweepActor(g, s, P, a), P, a + 1, d);
    }
  }

  lemma NextDropsNone(g: Graph, packets: seq<int>, s: State, P: int, ev: Event, d: nat)
    requires Inv(g, s, P) && Faithful(g, packets, s) && Enabled(s, ev)
    ensures NextDrops(g, s, P, ev, d) == 0
  {
    if ev.TransferDone? && s.blocks[ev.block].result {
      var b := ev.block;
      assert BlockOk(s, b);
      ResultFlag(g, s, b);
      ArriveFaithful(g, packets, s, P, b);
      DeliverKeeps(g, s, P, b);
      hide Flow, Faithful;
      ReleaseAllFaithful(g, packets, Arrive(s, b), P, s.blocks[b].actor);
      SweepDropsNone(g, packets, ReleaseAll(g, Arrive(s, b), s.blocks[b].actor), P, 0, d);
    }
  }

  lemma {:induction false} StaticRunsDropNone(
    g: Graph, fs: seq<Fifo<Token>>, blocks: nat, packets: seq<int>, ss: seq<State>, evs: seq<Event>, k: nat, d: nat)
    requires WellFormed(g) && FreshFifos(g, fs) && k < |ss|
    requires StaticRun(g, Accepted(packets), ss, evs) && ss[0] == Start(g, fs, blocks, packets)
    ensures RunFrom(g, fs, blocks, packets, ss, evs) && RunDrops(g, fs, blocks, packets, ss, evs, k, d) == 0
  {
    hide Inv, Faithful, WellFormed, FreshFifos, Next, Enabled;
    if k == 0 {
      StartDropsNone(g, fs, blocks, packets, d);
    } else {
      RunFaithful(g, fs, blocks, packets, ss, evs, k - 1);
      StaticRunsDropNone(g, fs, blocks, packets, ss, evs, k - 1, d);
      RunFromStep(g, fs, blocks, packets, ss, evs, k - 1);
      NextDropsNone(g, packets, ss[k - 1], Accepted(packets), evs[k - 1], d);
    }
  }

  lemma StartDropsNone(g: Graph, fs: seq<Fifo<Token>>, blocks: nat, packets: seq<int>, d: nat)
    requires WellFormed(g) && FreshFifos(g, fs)
    ensures StartDrops(g, fs, blocks, packets, d) == 0
  {
    InjectedFlow(g, fs, blocks, packets);
    InjectedFaithful(g, fs, blocks, packets);
    SweepDropsNone(g, packets, Inject(Created(g, fs, blocks), packets), Accepted(packets), 0, d);
  }
}
