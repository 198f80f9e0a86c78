// One actor, three packets, three blocks: two runs of the program as written
// after which the next result makes its drain loop hang, or deliver results in
// the wrong order (dma/transfer_callback.c:92-115).
module DrainExamples {
  import opened TokenFifo
  import opened Dataflow
  import opened TokenFlow
  import opened SchedulerSteps
  import opened SchedulerInvariants
  import opened SchedulerRuns
  import opened LingerDrain
  import opened WrittenHandler
  import ResultRows

  // The root is the sink too: edge 0 is its input, edge 1 its output.
  function G(): Graph { Graph([Actor([0], [[1]])], [-1, 0], [0, -1], Zero) }

  function Zero(a: nat, i: nat, args: seq<int>): int { 0 }

  // What the fresh FIFOs' cells happen to hold.
  const Cells9: seq<Token> := [Real(0), Real(1), Real(2), Pseudo, Pseudo, Pseudo, Pseudo, Pseudo, Pseudo]
  const Edges: seq<Fifo<Token>> := [Fifo(Cells9, 0, 0), Fifo(Cells9, 0, 0)]
  const Packets: seq<int> := [0, 0, 0]

  function Data(k: nat): Cell { Cell(0, 1, false, Packet(k)) }

  const AllData: seq<Cell> := [Data(0), Data(1), Data(2)]
  const Unborn: Block := Block(false, false, false, -1)

  // w packets are in and r are taken.
  function Early(w: int, r: int, ready: seq<Ready>, cells: seq<Cell>): State {
    State([Fifo(Cells9, w, r), Fifo(Cells9, 0, 0)], ready, [[]], [[]], [0], [Unborn, Unborn, Unborn], [], cells)
  }

  lemma Formed()
    ensures WellFormed(G()) && FreshFifos(G(), Edges)
  {
    var g := G();
    assert g.actors[0].outs[0] == [1] && InRow(g.actors[0].outs, 1);
    assert WellFormedActor(g, 0);
  }

  lemma OnePacket(n: nat, cells: seq<Cell>)
    requires n < 3 && |cells| == n
    ensures PacketInput(Early(n, 0, [], cells), 0) == Early(n + 1, 0, [], cells + [Data(n)])
  {
    var f := Fifo(Cells9, n, 0);
    assert Put(f, Real(n)).cells == Cells9;
    assert Early(n, 0, [], cells).fifos[0 := Put(f, Real(n))] == Early(n + 1, 0, [], cells).fifos;
  }

  lemma Injected()
    requires FreshFifos(G(), Edges)
    ensures Inject(Created(G(), Edges, 3), Packets) == Early(3, 0, [], AllData)
  {
    var s := Created(G(), Edges, 3);
    assert s == Early(0, 0, [], []);
    OnePacket(0, []);
    OnePacket(1, [Data(0)]);
    OnePacket(2, [Data(0), Data(1)]);
    assert [] + [Data(0)] == [Data(0)] && [Data(0)] + [Data(1)] == [Data(0), Data(1)];
    assert [Data(0), Data(1)] + [Data(2)] == AllData;
    hide PacketInput, Early, Data;
    assert Packets[1..] == [0, 0] && [0, 0][1..] == [0] && [0][1..] == [];
    assert Inject(Early(3, 0, [], AllData), []) == Early(3, 0, [], AllData);
    assert Inject(Early(2, 0, [], [Data(0), Data(1)]), [0]) == Early(3, 0, [], AllData);
    assert Inject(Early(1, 0, [], [Data(0)]), [0, 0]) == Early(3, 0, [], AllData);
  }

  // The actor takes one packet.
  lemma OneReady(r: nat, ready: seq<Ready>)
    requires r < 3 && WellFormed(G())
    ensures
      var s := Early(3, r, ready, AllData);
      && Shaped(G(), s) && FireCheck(G(), s, 0)
      && Consume(G(), s, 0) == Early(3, r + 1, ready + [Ready(0, [r])], AllData)
  {
    var s := Early(3, r, ready, AllData);
    assert G().actors[0].ins == [0] && G().actors[0].outs == [[1]];
    assert !Full(s.fifos[1]) && 1 in G().actors[0].outs[0];
    assert DropRow(s.fifos, [0]) == DropRow(s.fifos[0 := Drop(s.fifos[0])], [0][1..]) == s.fifos[0 := Drop(s.fifos[0])];
    assert RealHeads(s.fifos, [0]) == [r] + RealHeads(s.fifos, [0][1..]) == [r];
    assert s.fifos[0 := Drop(s.fifos[0])] == Early(3, r + 1, ready, AllData).fifos;
  }

  // All packets are taken: the state once the program waits for its blocks.
  lemma Launched()
    requires WellFormed(G()) && FreshFifos(G(), Edges)
    ensures Start(G(), Edges, 3, Packets) == Early(3, 3, AllReady, AllData) && Accepted(Packets) == 3
  {
    var g := G();
    Injected();
    InjectedFlow(g, Edges, 3, Packets);
    var s0 := Early(3, 0, [], AllData);
    ThreeReady(s0);
    var t := SweepActor(g, s0, 3, 0);
    assert Sweep(g, s0, 3) == SweepFrom(g, t, 3, 1) == t;
  }

  const AllReady: seq<Ready> := [Ready(0, [0]), Ready(0, [1]), Ready(0, [2])]

  lemma ThreeReady(s0: State)
    requires WellFormed(G()) && Flow(G(), s0, 3) && s0 == Early(3, 0, [], AllData)
    ensures SweepActor(G(), s0, 3, 0) == Early(3, 3, AllReady, AllData)
  {
    var g := G();
    var r0, r1, r2 := Ready(0, [0]), Ready(0, [1]), Ready(0, [2]);
    assert [] + [r0] == [r0] && [r0] + [r1] == [r0, r1] && [r0, r1] + [r2] == AllReady;
    var s1, s2, s3 := Early(3, 1, [r0], AllData), Early(3, 2, [r0, r1], AllData), Early(3, 3, AllReady, AllData);
    OneReady(0, []);
    OneReady(1, [r0]);
    OneReady(2, [r0, r1]);
    NotReady(s3);
    hide Early, Consume, FireCheck, Flow;
    SweepOnce(s0, s1);
    SweepOnce(s1, s2);
    SweepOnce(s2, s3);
  }

  lemma SweepOnce(s: State, t: State)
    requires Flow(G(), s, 3) && FireCheck(G(), s, 0) && t == Consume(G(), s, 0)
    ensures Flow(G(), t, 3) && SweepActor(G(), s, 3, 0) == SweepActor(G(), t, 3, 0)
  {
    FlowBounds(G(), s, 3, 0);
    ConsumeKeepsFlow(G(), s, 3, 0);
  }

  lemma NotReady(s: State)
    requires s == Early(3, 3, AllReady, AllData)
    ensures Shaped(G(), s) && !FireCheck(G(), s, 0)
  {
    assert 0 in G().actors[0].ins && Empty(s.fifos[0]);
  }

  // ------------------------------------------------------------------- steps

  // A run of the program as written gets there.
  ghost predicate Reached(s: State) {
    && WellFormed(G()) && FreshFifos(G(), Edges) && Inv(G(), s, 3)
    && exists ss, evs :: WrittenRun(G(), 3, ss, evs) && ss[0] == Start(G(), Edges, 3, Packets) && ss[|evs|] == s
  }

  lemma Begins()
    ensures Reached(Early(3, 3, AllReady, AllData))
  {
    Formed();
    Launched();
    StartInv(G(), Edges, 3, Packets);
    var s := Early(3, 3, AllReady, AllData);
    var ss, evs: seq<Event> := [s], [];
    assert WrittenRun(G(), 3, ss, evs) && ss[0] == s && ss[|evs|] == s;
  }

  lemma Continues(s: State, ev: Event)
    requires Reached(s) && Enabled(s, ev) && !Delivers(s, ev)
    ensures Reached(Next(G(), s, 3, ev))
  {
    var g, t := G(), Next(G(), s, 3, ev);
    NextKeepsInv(g, s, 3, ev);
    OrderedIsIntended(g, s, 3, ev);
    assert WrittenStep(g, 3, s, ev, t);
    hide Inv, Enabled, Next, Delivers, WrittenStep;
    Extends(s, ev, t);
  }

  lemma Extends(s: State, ev: Event, t: State)
    requires Reached(s) && WrittenStep(G(), 3, s, ev, t) && Inv(G(), t, 3)
    ensures Reached(t)
  {
    hide Inv, WrittenStep;
    var g := G();
    var ss, evs :| WrittenRun(g, 3, ss, evs) && ss[0] == Start(g, Edges, 3, Packets) && ss[|evs|] == s;
    var ss1, evs1 := ss + [t], evs + [ev];
    forall k | 0 <= k < |evs1|
      ensures WrittenStep(g, 3, ss1[k], evs1[k], ss1[k + 1])
    {
      if k < |evs| { assert WrittenStep(g, 3, ss[k], evs[k], ss[k + 1]); }
    }
    assert WrittenRun(g, 3, ss1, evs1) && ss1[0] == ss[0] && ss1[|evs1|] == t;
  }

  lemma Reports(s: State, b: nat)
    requires Reached(s) && b < |s.blocks| && !s.blocks[b].inflight && !s.blocks[b].infifo
    ensures Reached(ReportIdle(s, b))
  {
    assert BlockOk(s, b);
    Continues(s, Interrupt(b, 1));
  }

  lemma Takes(s: State)
    requires Reached(s) && s.idle != [] && s.ready != []
    ensures s.idle[0] < |s.blocks| && |s.fire| == |s.fired| == 1
    ensures (forall i :: 0 <= i < |s.ready| ==> s.ready[i].actor < |s.fire|) && Reached(HandOut(s))
  {
    assert s.idle[0] in s.idle;
    Continues(s, Check);
  }

  // Block b is at work on firing k of the actor.
  predicate Working(s: State, b: nat, k: nat) {
    |s.fire| == |s.linger| == 1 && b < |s.blocks| && k < |s.fire[0]| && Matches(s.fire[0][k], b) && s.blocks[b].inflight
    && s.blocks[b].actor == 0
  }

  lemma WorksOn(s: State, b: nat, k: nat)
    requires Reached(s) && Working(s, b, k)
    ensures BlockOk(s, b) && FiringOf(s.fire[0], b) == k && (s.blocks[b].result <==> s.fire[0][k].stage.Returning?)
  {
    assert BlockOk(s, b) && ActorBlocks(s, 0);
    FiringIsUnique(s.fire[0], b, k);
    ResultFlag(G(), s, b);
  }

  lemma Loads(s: State, b: nat, k: nat)
    requires Reached(s) && Working(s, b, k) && s.fire[0][k].stage.Loading?
    ensures
      var deps := s.fire[0][k].stage.deps;
      Reached(SetStage(s, 0, k, Running(Values(s.cells, deps))).(cells := Recycle(s.cells, deps)))
  {
    WorksOn(s, b, k);
    Continues(s, TransferDone(b));
  }

  lemma Computes(s: State, b: nat, k: nat)
    requires Reached(s) && Working(s, b, k) && s.fire[0][k].stage.Running? && s.blocks[b].infifo
    ensures
      var cell := Cell(0, 1, false, Result(0, 0, s.fire[0][k].id));
      Reached(SetStage(s, 0, k, Returning([|s.cells|])).(
        cells := s.cells + [cell], blocks := s.blocks[b := s.blocks[b].(result := true)]))
  {
    WorksOn(s, b, k);
    ComputedIs(s, b, k);
    hide Computed, Inv;
    Continues(s, Interrupt(b, 1));
  }

  lemma ComputedIs(s: State, b: nat, k: nat)
    requires Working(s, b, k) && s.fire[0][k].stage.Running? && BlockOk(s, b) && FiringOf(s.fire[0], b) == k
    ensures
      var cell := Cell(0, 1, false, Result(0, 0, s.fire[0][k].id));
      Computed(G(), s, b, 1) == SetStage(s, 0, k, Returning([|s.cells|])).(
        cells := s.cells + [cell], blocks := s.blocks[b := s.blocks[b].(result := true)])
  {
    var f := s.fire[0][k];
    assert seq(1, i => |s.cells| + i) == [|s.cells|];
    assert NewCells(G(), 0, f.id, f.stage.args, 1) == [Cell(0, 1, false, Result(0, 0, f.id))];
  }

  // A result arrives while an older one is due.
  lemma Arrives(s: State, b: nat, k: nat)
    requires Reached(s) && Working(s, b, k) && s.fire[0][k].stage.Returning? && s.fire[0][0].block != b
    ensures
      Reached(SetStage(s, 0, k, Lingering(s.fire[0][k].stage.results)).(
        linger := [[s.fire[0][k].id] + s.linger[0]], blocks := s.blocks[b := Block(false, false, false, 0)]))
  {
    WorksOn(s, b, k);
    Continues(s, TransferDone(b));
    assert s.linger[0 := [s.fire[0][k].id] + s.linger[0]] == [[s.fire[0][k].id] + s.linger[0]];
  }

  // ------------------------------------------------------------ the two runs

  // No result has been passed on yet.
  function Late(ready: seq<Ready>, fire: seq<Firing>, linger: seq<nat>, blocks: seq<Block>, idle: seq<nat>, cells: seq<Cell>): State {
    State([Fifo(Cells9, 3, 3), Fifo(Cells9, 0, 0)], ready, [fire], [linger], [|fire|], blocks, idle, cells)
  }

  const Waits: Block := Block(false, true, false, -1)
  const Works: Block := Block(true, true, false, 0)
  const Sends: Block := Block(true, true, true, 0)
  const Rests: Block := Block(false, false, false, 0)

  function Freed(k: nat): Cell { Data(k).(freed := true) }

  function Made(id: nat): Cell { Cell(0, 1, false, Result(0, 0, id)) }

  // The next idle block takes the next entry.
  lemma TakesNext(ready: seq<Ready>, fire: seq<Firing>, linger: seq<nat>, blocks: seq<Block>, idle: seq<nat>, cells: seq<Cell>)
    requires Reached(Late(ready, fire, linger, blocks, idle, cells)) && idle != [] && ready != []
    ensures idle[0] < |blocks|
    ensures
      var f := Firing(|fire|, idle[0], Loading(ready[0].deps));
      Reached(Late(ready[1..], fire + [f], linger, blocks[idle[0] := blocks[idle[0]].(inflight := true, actor := 0)], idle[1..], cells))
  {
    var s := Late(ready, fire, linger, blocks, idle, cells);
    Takes(s);
    assert ready[0].actor == 0 by { assert s.ready[0].actor < |s.fire|; }
    var r := Select(ready, blocks[idle[0]].actor);
    assert r == 0;
    assert RemoveAt(ready, 0) == ready[1..];
    var f := Firing(|fire|, idle[0], Loading(ready[0].deps));
    assert HandOut(s) == Late(ready[1..], fire + [f], linger, blocks[idle[0] := blocks[idle[0]].(inflight := true, actor := 0)], idle[1..], cells);
  }

  // Block b's firing k is loaded and computed.
  lemma RunsFiring(ready: seq<Ready>, fire: seq<Firing>, linger: seq<nat>, blocks: seq<Block>, idle: seq<nat>, cells: seq<Cell>,
                   b: nat, k: nat)
    requires Reached(Late(ready, fire, linger, blocks, idle, cells))
    requires k < |fire| && fire[k] == Firing(k, b, Loading([k])) && b < |blocks| && blocks[b] == Works
    requires k < |cells| && cells[k] == Data(k)
    ensures
      Reached(Late(ready, fire[k := Firing(k, b, Returning([|cells|]))], linger, blocks[b := Sends], idle,
                   cells[k := Freed(k)] + [Made(k)]))
  {
    hide Reached;
    var s := Late(ready, fire, linger, blocks, idle, cells);
    Loads(s, b, k);
    assert [k][..0] == [];
    assert Recycle(cells, [k]) == Recycle(RecycleOne(cells, [k][0]), [k][..0]) == cells[k := Freed(k)];
    var args := Values(cells, [k]);
    var running := fire[k := Firing(k, b, Running(args))];
    var t := Late(ready, running, linger, blocks, idle, cells[k := Freed(k)]);
    assert SetStage(s, 0, k, Running(args)).(cells := Recycle(cells, [k])) == t;
    Computes(t, b, k);
    var returning := fire[k := Firing(k, b, Returning([|cells|]))];
    assert running[k := Firing(k, b, Returning([|cells|]))] == returning;
    assert SetStage(t, 0, k, Returning([|cells|])).(cells := cells[k := Freed(k)] + [Made(k)], blocks := blocks[b := Sends])
      == Late(ready, returning, linger, blocks[b := Sends], idle, cells[k := Freed(k)] + [Made(k)]);
  }

  // Its result arrives, too early.
  lemma ArrivesEarly(ready: seq<Ready>, fire: seq<Firing>, linger: seq<nat>, blocks: seq<Block>, idle: seq<nat>, cells: seq<Cell>,
                     b: nat, k: nat, d: nat)
    requires Reached(Late(ready, fire, linger, blocks, idle, cells))
    requires k < |fire| && fire[k] == Firing(k, b, Returning([d])) && b < |blocks| && blocks[b] == Sends && fire[0].block != b
    ensures Reached(Late(ready, fire[k := Firing(k, b, Lingering([d]))], [k] + linger, blocks[b := Rests], idle, cells))
  {
    var s := Late(ready, fire, linger, blocks, idle, cells);
    Arrives(s, b, k);
    assert SetStage(s, 0, k, Lingering([d])).(linger := [[k] + linger], blocks := blocks[b := Rests])
      == Late(ready, fire[k := Firing(k, b, Lingering([d]))], [k] + linger, blocks[b := Rests], idle, cells);
  }

  lemma ReportsNext(ready: seq<Ready>, fire: seq<Firing>, linger: seq<nat>, blocks: seq<Block>, idle: seq<nat>, cells: seq<Cell>,
                    b: nat)
    requires Reached(Late(ready, fire, linger, blocks, idle, cells))
    requires b < |blocks| && !blocks[b].inflight && !blocks[b].infifo
    ensures Reached(Late(ready, fire, linger, blocks[b := blocks[b].(infifo := true)], idle + [b], cells))
  {
    Reports(Late(ready, fire, linger, blocks, idle, cells), b);
  }

  // Blocks 0 and 1 have reported, and block 2 if it is to.
  lemma BlocksReported(third: Block)
    requires third == Unborn || third == Waits
    ensures Reached(Late(AllReady, [], [], [Waits, Waits, third], [0, 1] + (if third == Waits then [2] else []), AllData))
  {
    hide Reached;
    Begins();
    assert Early(3, 3, AllReady, AllData) == Late(AllReady, [], [], [Unborn, Unborn, Unborn], [], AllData);
    ReportsNext(AllReady, [], [], [Unborn, Unborn, Unborn], [], AllData, 0);
    assert [Unborn, Unborn, Unborn][0 := Waits] == [Waits, Unborn, Unborn] && [] + [0] == [0];
    ReportsNext(AllReady, [], [], [Waits, Unborn, Unborn], [0], AllData, 1);
    assert [Waits, Unborn, Unborn][1 := Waits] == [Waits, Waits, Unborn] && [0] + [1] == [0, 1] == [0, 1] + [];
    if third == Waits {
      ReportsNext(AllReady, [], [], [Waits, Waits, Unborn], [0, 1], AllData, 2);
      assert [Waits, Waits, Unborn][2 := Waits] == [Waits, Waits, third];
    }
  }

  // They have taken the first two packets.
  lemma TwoAtWork(third: Block)
    requires third == Unborn || third == Waits
    ensures
      var fire := [Firing(0, 0, Loading([0])), Firing(1, 1, Loading([1]))];
      Reached(Late([Ready(0, [2])], fire, [], [Works, Works, third], if third == Waits then [2] else [], AllData))
  {
    hide Reached, Late;
    BlocksReported(third);
    var rest: seq<nat> := if third == Waits then [2] else [];
    var f0, f1 := Firing(0, 0, Loading([0])), Firing(1, 1, Loading([1]));
    var ready1 := [Ready(0, [1]), Ready(0, [2])];
    TakesNext(AllReady, [], [], [Waits, Waits, third], [0, 1] + rest, AllData);
    assert AllReady[1..] == ready1 && [] + [f0] == [f0] && ([0, 1] + rest)[1..] == [1] + rest;
    assert [Waits, Waits, third][0 := Works] == [Works, Waits, third];
    TakesNext(ready1, [f0], [], [Works, Waits, third], [1] + rest, AllData);
    assert ready1[1..] == [Ready(0, [2])] && [f0] + [f1] == [f0, f1] && ([1] + rest)[1..] == rest;
    assert [Works, Waits, third][1 := Works] == [Works, Works, third];
  }

  // Three firings on three blocks; the youngest result comes first, then the
  // oldest: the loop looks for the one in between for ever.
  lemma DrainHangs() returns (s: State)
    ensures Reached(s) && Enabled(s, TransferDone(0)) && Delivers(s, TransferDone(0)) && !Returns(s, TransferDone(0))
  {
    hide Reached, Enabled, Delivers, Returns, DrainOf;
    TwoAtWork(Waits);
    var f0, f1, f2 := Firing(0, 0, Loading([0])), Firing(1, 1, Loading([1])), Firing(2, 2, Loading([2]));
    TakesNext([Ready(0, [2])], [f0, f1], [], [Works, Works, Waits], [2], AllData);
    assert [Ready(0, [2])][1..] == [] && [f0, f1] + [f2] == [f0, f1, f2] && [2][1..] == [];
    assert [Works, Works, Waits][2 := Works] == [Works, Works, Works];
    RunsFiring([], [f0, f1, f2], [], [Works, Works, Works], [], AllData, 2, 2);
    var r2 := Firing(2, 2, Returning([3]));
    var cells := [Data(0), Data(1), Freed(2), Made(2)];
    assert [f0, f1, f2][2 := r2] == [f0, f1, r2] && [Works, Works, Works][2 := Sends] == [Works, Works, Sends];
    assert AllData[2 := Freed(2)] + [Made(2)] == cells;
    ArrivesEarly([], [f0, f1, r2], [], [Works, Works, Sends], [], cells, 2, 2, 3);
    var l2 := Firing(2, 2, Lingering([3]));
    assert [f0, f1, r2][2 := l2] == [f0, f1, l2] && [2] + [] == [2] && [Works, Works, Sends][2 := Rests] == [Works, Works, Rests];
    RunsFiring([], [f0, f1, l2], [2], [Works, Works, Rests], [], cells, 0, 0);
    var fire := [Firing(0, 0, Returning([4])), f1, l2];
    assert [f0, f1, l2][0 := fire[0]] == fire && [Works, Works, Rests][0 := Sends] == [Sends, Works, Rests];
    s := Late([], fire, [2], [Sends, Works, Rests], [], cells[0 := Freed(0)] + [Made(0)]);
    HangingLists(s, fire);
    OldestIsDue(s, fire);
  }

  // Block 0 is about to deliver the oldest firing's result.
  lemma OldestIsDue(s: State, fire: seq<Firing>)
    requires Reached(s) && s.fire == [fire] && |s.linger| == 1 && |s.blocks| > 0 && s.blocks[0] == Sends
    requires fire != [] && fire[0].block == 0 && fire[0].stage.Returning?
    ensures Enabled(s, TransferDone(0)) && Delivers(s, TransferDone(0))
    ensures Returns(s, TransferDone(0)) <==> Ends(DrainOf(s, 0))
  {
    WorksOn(s, 0, 0);
  }

  lemma HangingLists(s: State, fire: seq<Firing>)
    requires fire == [Firing(0, 0, Returning([4])), Firing(1, 1, Loading([1])), Firing(2, 2, Lingering([3]))]
    requires s.fire == [fire] && s.linger == [[2]]
    ensures !Ends(DrainOf(s, 0))
  {
    var d := DrainOf(s, 0);
    assert fire[Position(fire, 2)].id == 2 by { assert fire[2].id == 2; }
    assert s.linger[0] == [2] && Lingers(fire, [2]) == [Entry(2, 2)];
    assert d.fire == [Entry(1, 1), Entry(2, 2)] && d.linger == [Entry(2, 2)];
    DrainEndsIff(0, d.fire, d.linger);
    assert !Found(d.fire, d.linger, 0);
  }

  // Block 1 has run the second packet's firing, and is idle again.
  lemma SecondIsEarly()
    ensures
      var fire := [Firing(0, 0, Loading([0])), Firing(1, 1, Lingering([3]))];
      Reached(Late([Ready(0, [2])], fire, [1], [Works, Block(false, true, false, 0), Unborn], [1], [Data(0), Freed(1), Data(2), Made(1)]))
  {
    hide Reached, Late;
    TwoAtWork(Unborn);
    var ready := [Ready(0, [2])];
    var f0, f1 := Firing(0, 0, Loading([0])), Firing(1, 1, Loading([1]));
    RunsFiring(ready, [f0, f1], [], [Works, Works, Unborn], [], AllData, 1, 1);
    var r1, l1 := Firing(1, 1, Returning([3])), Firing(1, 1, Lingering([3]));
    var cells := [Data(0), Freed(1), Data(2), Made(1)];
    assert [f0, f1][1 := r1] == [f0, r1] && [Works, Works, Unborn][1 := Sends] == [Works, Sends, Unborn];
    assert AllData[1 := Freed(1)] + [Made(1)] == cells;
    ArrivesEarly(ready, [f0, r1], [], [Works, Sends, Unborn], [], cells, 1, 1, 3);
    assert [f0, r1][1 := l1] == [f0, l1] && [1] + [] == [1] && [Works, Sends, Unborn][1 := Rests] == [Works, Rests, Unborn];
    ReportsNext(ready, [f0, l1], [1], [Works, Rests, Unborn], [], cells, 1);
    assert [Works, Rests, Unborn][1 := Block(false, true, false, 0)] == [Works, Block(false, true, false, 0), Unborn] && [] + [1] == [1];
  }

  // It takes the third packet, its old actor's, and runs that too.
  lemma ThirdIsEarly()
    ensures
      var fire := [Firing(0, 0, Loading([0])), Firing(1, 1, Lingering([3])), Firing(2, 1, Lingering([4]))];
      Reached(Late([], fire, [2, 1], [Works, Rests, Unborn], [], [Data(0), Freed(1), Freed(2), Made(1), Made(2)]))
  {
    hide Reached, Late;
    SecondIsEarly();
    var cells := [Data(0), Freed(1), Data(2), Made(1)];
    var f0, l1, f2 := Firing(0, 0, Loading([0])), Firing(1, 1, Lingering([3])), Firing(2, 1, Loading([2]));
    TakesNext([Ready(0, [2])], [f0, l1], [1], [Works, Block(false, true, false, 0), Unborn], [1], cells);
    assert [Ready(0, [2])][1..] == [] && [f0, l1] + [f2] == [f0, l1, f2] && [1][1..] == [];
    assert [Works, Block(false, true, false, 0), Unborn][1 := Works] == [Works, Works, Unborn];
    RunsFiring([], [f0, l1, f2], [1], [Works, Works, Unborn], [], cells, 1, 2);
    var r2, l2 := Firing(2, 1, Returning([4])), Firing(2, 1, Lingering([4]));
    var more := [Data(0), Freed(1), Freed(2), Made(1), Made(2)];
    assert [f0, l1, f2][2 := r2] == [f0, l1, r2] && [Works, Works, Unborn][1 := Sends] == [Works, Sends, Unborn];
    assert cells[2 := Freed(2)] + [Made(2)] == more;
    ArrivesEarly([], [f0, l1, r2], [1], [Works, Sends, Unborn], [], more, 1, 2, 4);
    assert [f0, l1, r2][2 := l2] == [f0, l1, l2] && [2] + [1] == [2, 1] && [Works, Sends, Unborn][1 := Rests] == [Works, Rests, Unborn];
  }

  // Edge 1 carries the results of these firings, in this order.
  ghost predicate Carries(t: State, d0: nat, k0: nat, d1: nat, k1: nat, d2: nat, k2: nat) {
    && |t.fifos| == 2 && t.fifos[1].wptr >= 3 && |t.fifos[1].cells| == 9
    && t.fifos[1].cells[0] == Real(d0) && t.fifos[1].cells[1] == Real(d1) && t.fifos[1].cells[2] == Real(d2)
    && d0 < |t.cells| && d1 < |t.cells| && d2 < |t.cells|
    && t.cells[d0].origin == Result(0, 0, k0) && t.cells[d1].origin == Result(0, 0, k1) && t.cells[d2].origin == Result(0, 0, k2)
  }

  // Two early results from the same block: when the oldest arrives, the loop
  // returns, but it delivers the third packet's result before the second's.
  lemma DrainSwaps() returns (s: State)
    ensures Reached(s) && Enabled(s, TransferDone(0)) && Delivers(s, TransferDone(0)) && Returns(s, TransferDone(0))
    ensures |s.fire| == |s.linger| == 1 && s.fire[0] != []
    ensures DrainOf(s, 0).fire == [Entry(1, 1), Entry(2, 1)]
    ensures EndsWith(DrainOf(s, 0), [Entry(2, 1), Entry(1, 1)])
    ensures Carries(WrittenNext(G(), s, 3, TransferDone(0)), 5, 0, 4, 2, 3, 1)
  {
    hide Reached, Enabled, Delivers, Returns, DrainOf, Carries, WrittenNext;
    ThirdIsEarly();
    var f0, l1, l2 := Firing(0, 0, Loading([0])), Firing(1, 1, Lingering([3])), Firing(2, 1, Lingering([4]));
    var cells := [Data(0), Freed(1), Freed(2), Made(1), Made(2)];
    RunsFiring([], [f0, l1, l2], [2, 1], [Works, Rests, Unborn], [], cells, 0, 0);
    var fire := [Firing(0, 0, Returning([5])), l1, l2];
    assert [f0, l1, l2][0 := fire[0]] == fire && [Works, Rests, Unborn][0 := Sends] == [Sends, Rests, Unborn];
    s := Late([], fire, [2, 1], [Sends, Rests, Unborn], [], cells[0 := Freed(0)] + [Made(0)]);
    SwappingLists(s, fire);
    OldestIsDue(s, fire);
    ReachedInv(s);
    SwappedTokens(s, fire);
  }

  lemma ReachedInv(s: State)
    requires Reached(s)
    ensures Inv(G(), s, 3)
  {
  }

  lemma SwappedTokens(s: State, fire: seq<Firing>)
    requires Inv(G(), s, 3) && Enabled(s, TransferDone(0)) && Delivers(s, TransferDone(0)) && Returns(s, TransferDone(0))
    requires fire == [Firing(0, 0, Returning([5])), Firing(1, 1, Lingering([3])), Firing(2, 1, Lingering([4]))]
    requires s.fire == [fire] && s.linger == [[2, 1]] && s.fifos == [Fifo(Cells9, 3, 3), Fifo(Cells9, 0, 0)]
    requires s.cells == [Freed(0), Freed(1), Freed(2), Made(1), Made(2), Made(0)] && |s.blocks| > 0 && s.blocks[0] == Sends
    requires EndsWith(DrainOf(s, 0), [Entry(2, 1), Entry(1, 1)])
    ensures Carries(WrittenNext(G(), s, 3, TransferDone(0)), 5, 0, 4, 2, 3, 1)
  {
    hide Inv, Enabled, WrittenNext, Carries, ResultRows.PlacedInOrder, Reached;
    assert G().src[1] == s.blocks[0].actor;
    ResultRows.WrittenDeliveryFills(G(), s, 3, TransferDone(0), 1);
    OutcomeIsOne(DrainOf(s, 0), Outcome(DrainOf(s, 0)), [Entry(2, 1), Entry(1, 1)]);
    assert [Entry(0, 0)] + [Entry(2, 1), Entry(1, 1)] == [Entry(0, 0), Entry(2, 1), Entry(1, 1)];
    hide Delivers, Returns, DrainOf, Outcome;
    PlacedCarries(WrittenNext(G(), s, 3, TransferDone(0)), fire, [Entry(0, 0), Entry(2, 1), Entry(1, 1)]);
  }

  lemma PlacedCarries(t: State, fire: seq<Firing>, es: seq<Entry>)
    requires fire == [Firing(0, 0, Returning([5])), Firing(1, 1, Lingering([3])), Firing(2, 1, Lingering([4]))]
    requires es == [Entry(0, 0), Entry(2, 1), Entry(1, 1)] && |t.fifos| == 2
    requires t.cells == [Freed(0), Freed(1), Freed(2), Made(1), Made(2), Made(0)]
    requires ResultRows.PlacedInOrder(G(), Fifo(Cells9, 0, 0), t.fifos[1], 0, fire, es, 1)
    ensures Carries(t, 5, 0, 4, 2, 3, 1)
  {
    assert fire[0].id == 0 && fire[1].id == 1 && fire[2].id == 2;
    assert Position(fire, 0) == 0 && Position(fire, 1) == 1 && Position(fire, 2) == 2;
    assert RowOf(G().actors[0].outs, 1) == 0;
    assert ResultsOf(fire, es[0].id) == [5] && ResultsOf(fire, es[1].id) == [4] && ResultsOf(fire, es[2].id) == [3];
    var was, f := Fifo(Cells9, 0, 0), t.fifos[1];
    forall j | 0 <= j < |es|
      ensures f.cells[was.wptr + j] == TokenFor(ResultsOf(fire, es[j].id), 0)
    {
    }
    assert f.cells[was.wptr + 0] == Real(5) && f.cells[was.wptr + 1] == Real(4) && f.cells[was.wptr + 2] == Real(3);
  }

  lemma SwappingLists(s: State, fire: seq<Firing>)
    requires fire == [Firing(0, 0, Returning([5])), Firing(1, 1, Lingering([3])), Firing(2, 1, Lingering([4]))]
    requires s.fire == [fire] && s.linger == [[2, 1]]
    ensures DrainOf(s, 0).fire == [Entry(1, 1), Entry(2, 1)]
    ensures EndsWith(DrainOf(s, 0), [Entry(2, 1), Entry(1, 1)]) && Ends(DrainOf(s, 0))
  {
    var d := DrainOf(s, 0);
    assert fire[Position(fire, 2)].id == 2 by { assert fire[2].id == 2; }
    assert fire[Position(fire, 1)].id == 1 by { assert fire[1].id == 1; }
    var e1, e2 := Entry(1, 1), Entry(2, 1);
    assert s.linger[0] == [2, 1] && Lingers(fire, [2, 1]) == [e2, e1] && d.fire == [e1, e2];
    var d1 := Drain([e2], [e1], 1, 0, [e2]);
    assert [e1, e2][1..] == [e2] && [e2, e1][1..] == [e1] && [e2][1..] == [] && [e1][1..] == [];
    assert d == Drain([e1, e2], [e2, e1], 1, 0, []) && [] + [e2] == [e2] && [e2] + [e1] == [e2, e1];
    assert Visit(d) == d1 && Visit(d1) == Drain([], [], 1, 0, [e2, e1]);
    assert Visits(d, 0) == d && Visits(d, 1) == d1 && Visits(d, 2) == Visit(d1);
  }
}
