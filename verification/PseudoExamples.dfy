// Two runs of whole programs, each with one block, in which tasks return fewer
// results than their actors have rows: in one a data cell is never freed, in the
// other a pseudo token overtakes a firing (src/fire_check.c:51-58, 118-125).
module PseudoExamples {
  import opened TokenFifo
  import opened Dataflow
  import opened TokenFlow
  import opened SchedulerSteps
  import opened SchedulerInvariants
  import opened SchedulerRuns
  import opened WrittenHandler
  import opened TokenShares
  import opened RefCounts

  function Zero(a: nat, i: nat, args: seq<int>): int { 0 }

  // Actor 0 has two result rows; the second feeds the first input of actor 1.
  function Two(ins: seq<nat>, snk1: int): Graph {
    Graph([Actor([0], [[1], [2]]), Actor(ins, [[3]])], [-1, 0, 0, 1], [0, snk1, 1, -1], Zero)
  }

  // Either the first row feeds actor 1 too, or nobody reads it.
  predicate Wires(ins: seq<nat>, snk1: int) {
    (ins == [2, 1] && snk1 == 1) || (ins == [2] && snk1 == -1)
  }

  lemma TwoFormed(ins: seq<nat>, snk1: int)
    requires Wires(ins, snk1)
    ensures WellFormed(Two(ins, snk1))
  {
    var g := Two(ins, snk1);
    FirstActor(ins, snk1);
    SecondActor(ins, snk1);
    assert g.actors[0].outs[0] == [1] && g.actors[0].outs[1] == [2] && g.actors[1].outs[0] == [3];
    hide WellFormedActor;
    assert InRow(g.actors[0].outs, 1) && InRow(g.actors[0].outs, 2) && InRow(g.actors[1].outs, 3);
  }

  lemma FirstActor(ins: seq<nat>, snk1: int)
    ensures WellFormedActor(Two(ins, snk1), 0)
  {
    var g := Two(ins, snk1);
    assert g.actors[0].outs[0] == [1] && g.actors[0].outs[1] == [2];
  }

  lemma SecondActor(ins: seq<nat>, snk1: int)
    requires Wires(ins, snk1)
    ensures WellFormedActor(Two(ins, snk1), 1)
  {
    var g := Two(ins, snk1);
    assert g.actors[1].outs[0] == [3];
  }

  // A graph with its fresh FIFOs and the packets for it.
  datatype Program = Program(g: Graph, fs: seq<Fifo<Token>>, packets: seq<int>)

  // After n events of a run, with one block.
  ghost predicate Reached(p: Program, s: State, n: nat) {
    && Inv(p.g, s, Accepted(p.packets))
    && exists ss, evs :: RunTo(p, ss, evs, s, n)
  }

  ghost predicate RunTo(p: Program, ss: seq<State>, evs: seq<Event>, s: State, n: nat) {
    RunFrom(p.g, p.fs, 1, p.packets, ss, evs) && |evs| == n && |ss| == n + 1 && ss[n] == s
  }

  lemma Begins(p: Program)
    requires WellFormed(p.g) && FreshFifos(p.g, p.fs)
    ensures Reached(p, Start(p.g, p.fs, 1, p.packets), 0)
  {
    StartInv(p.g, p.fs, 1, p.packets);
    var s := Start(p.g, p.fs, 1, p.packets);
    var ss, evs: seq<Event> := [s], [];
    hide Inv, Start;
    assert Run(p.g, Accepted(p.packets), ss, evs);
    assert RunTo(p, ss, evs, s, 0);
  }

  ghost predicate Makes(p: Program, s: State, ev: Event, t: State) {
    var P := Accepted(p.packets);
    Inv(p.g, s, P) && Enabled(s, ev) && t == Next(p.g, s, P, ev)
  }

  lemma Continues(p: Program, s: State, n: nat, ev: Event)
    requires Reached(p, s, n) && Enabled(s, ev)
    ensures Reached(p, Next(p.g, s, Accepted(p.packets), ev), n + 1)
  {
    var t := Next(p.g, s, Accepted(p.packets), ev);
    NextKeepsInv(p.g, s, Accepted(p.packets), ev);
    assert Makes(p, s, ev, t);
    var ss, evs :| RunTo(p, ss, evs, s, n);
    hide Inv, Enabled, Next, RunTo, Makes;
    Extends(p, ss, evs, s, n, ev, t);
  }

  lemma Extends(p: Program, ss: seq<State>, evs: seq<Event>, s: State, n: nat, ev: Event, t: State)
    requires RunTo(p, ss, evs, s, n) && Makes(p, s, ev, t)
    ensures RunTo(p, ss + [t], evs + [ev], t, n + 1)
  {
    var ss1, evs1 := ss + [t], evs + [ev];
    RunIsSteps(p, ss, evs);
    hide Makes, Run, WellFormed, FreshFifos, Start;
    forall k | 0 <= k < |evs1|
      ensures Makes(p, ss1[k], evs1[k], ss1[k + 1])
    {
      if k < n { assert Makes(p, ss[k], evs[k], ss[k + 1]); }
    }
    RunIsSteps(p, ss1, evs1);
    assert ss1[0] == ss[0];
  }

  lemma RunIsSteps(p: Program, ss: seq<State>, evs: seq<Event>)
    requires |ss| == |evs| + 1
    ensures
      Run(p.g, Accepted(p.packets), ss, evs)
      <==> forall k :: 0 <= k < |evs| ==> Makes(p, ss[k], evs[k], ss[k + 1])
  {
    if Run(p.g, Accepted(p.packets), ss, evs) {
      forall k | 0 <= k < |evs|
        ensures Makes(p, ss[k], evs[k], ss[k + 1])
      {
        assert ss[k + 1] == Next(p.g, ss[k], Accepted(p.packets), evs[k]);
      }
    }
    if forall k :: 0 <= k < |evs| ==> Makes(p, ss[k], evs[k], ss[k + 1]) {
      forall k | 0 <= k < |evs|
        ensures Inv(p.g, ss[k], Accepted(p.packets)) && Enabled(ss[k], evs[k])
        ensures ss[k + 1] == Next(p.g, ss[k], Accepted(p.packets), evs[k])
      {
        assert Makes(p, ss[k], evs[k], ss[k + 1]);
      }
    }
  }

  // ------------------------------------------------------------------- steps

  // Only actor 0 ever has a firing.
  function At(fifos: seq<Fifo<Token>>, ready: seq<Ready>, fire: seq<Firing>, fired: nat, block: Block, idle: seq<nat>,
              cells: seq<Cell>): State {
    State(fifos, ready, [fire, []], [[], []], [fired, 0], [block], idle, cells)
  }

  const Unborn: Block := Block(false, false, false, -1)
  const Works: Block := Block(true, true, false, 0)
  const Sends: Block := Block(true, true, true, 0)
  const Rests: Block := Block(false, false, false, 0)

  function Data(k: nat): Cell { Cell(0, 1, false, Packet(k)) }

  function Freed(k: nat): Cell { Data(k).(freed := true) }

  function Made(i: nat, id: nat): Cell { Cell(0, 1, false, Result(0, i, id)) }

  lemma Reports(p: Program, fifos: seq<Fifo<Token>>, ready: seq<Ready>, fired: nat, block: Block, cells: seq<Cell>, n: nat)
    requires Reached(p, At(fifos, ready, [], fired, block, [], cells), n) && !block.inflight && !block.infifo
    ensures Reached(p, At(fifos, ready, [], fired, block.(infifo := true), [0], cells), n + 1)
  {
    var s := At(fifos, ready, [], fired, block, [], cells);
    assert BlockOk(s, 0);
    Continues(p, s, n, Interrupt(0, 1));
    hide Inv, Reached;
    assert [] + [0] == [0] && [block][0 := block.(infifo := true)] == [block.(infifo := true)];
  }

  // The block takes the oldest entry, which is actor 0's.
  lemma Takes(p: Program, fifos: seq<Fifo<Token>>, ready: seq<Ready>, fired: nat, block: Block, cells: seq<Cell>, n: nat)
    requires Reached(p, At(fifos, ready, [], fired, block, [0], cells), n)
    requires ready != [] && ready[0].actor == 0 && block.infifo && !block.inflight && -1 <= block.actor <= 0
    ensures
      var f := Firing(fired, 0, Loading(ready[0].deps));
      Reached(p, At(fifos, ready[1..], [f], fired + 1, block.(inflight := true, actor := 0), [], cells), n + 1)
  {
    var s := At(fifos, ready, [], fired, block, [0], cells);
    Continues(p, s, n, Check);
    HandsOut(s, fifos, ready, fired, block, cells);
  }

  lemma HandsOut(s: State, fifos: seq<Fifo<Token>>, ready: seq<Ready>, fired: nat, block: Block, cells: seq<Cell>)
    requires s == At(fifos, ready, [], fired, block, [0], cells)
    requires ready != [] && ready[0].actor == 0 && -1 <= block.actor <= 0
    requires forall i :: 0 <= i < |ready| ==> ready[i].actor < 2
    ensures
      var f := Firing(fired, 0, Loading(ready[0].deps));
      HandOut(s) == At(fifos, ready[1..], [f], fired + 1, block.(inflight := true, actor := 0), [], cells)
  {
    assert Select(ready, block.actor) == 0;
    assert RemoveAt(ready, 0) == ready[1..];
    assert [] + [Firing(fired, 0, Loading(ready[0].deps))] == [Firing(fired, 0, Loading(ready[0].deps))];
  }

  // The one block is at work on the one firing.
  predicate Alone(s: State, f: Firing) {
    |s.fire| == |s.linger| == 2 && s.fire[0] == [f] && f.block == 0 && InFlight(f) && |s.blocks| == 1
    && s.blocks[0].inflight && s.blocks[0].actor == 0
  }

  lemma WorksAlone(p: Program, s: State, n: nat, f: Firing)
    requires Reached(p, s, n) && Alone(s, f)
    ensures BlockOk(s, 0) && FiringOf(s.fire[0], 0) == 0 && (s.blocks[0].result <==> f.stage.Returning?)
  {
    assert BlockOk(s, 0);
    ResultFlag(p.g, s, 0);
  }

  lemma LoadsNext(p: Program, s: State, n: nat, f: Firing)
    requires Reached(p, s, n) && Alone(s, f) && f.stage.Loading?
    ensures BlockOk(s, 0) && FiringOf(s.fire[0], 0) == 0 && Reached(p, Loaded(s, 0), n + 1)
  {
    WorksAlone(p, s, n, f);
    Continues(p, s, n, TransferDone(0));
  }

  lemma ComputesNext(p: Program, s: State, n: nat, f: Firing, ret: nat)
    requires Reached(p, s, n) && Alone(s, f) && f.stage.Running? && ret > 0 && s.blocks[0].infifo
    ensures BlockOk(s, 0) && FiringOf(s.fire[0], 0) == 0 && |s.fire| == |p.g.actors| && Reached(p, Computed(p.g, s, 0, ret), n + 1)
  {
    WorksAlone(p, s, n, f);
    Continues(p, s, n, Interrupt(0, ret));
  }

  lemma DeliversNext(p: Program, s: State, n: nat, f: Firing)
    requires Reached(p, s, n) && Alone(s, f) && f.stage.Returning?
    ensures BlockOk(s, 0) && FiringOf(s.fire[0], 0) == 0 && WellFormed(p.g) && Shaped(p.g, s) && Shaped(p.g, Arrive(s, 0))
    ensures
      var u := ReleaseAll(p.g, Arrive(s, 0), 0);
      Flow(p.g, u, Accepted(p.packets)) && Reached(p, Sweep(p.g, u, Accepted(p.packets)), n + 1)
  {
    WorksAlone(p, s, n, f);
    DeliverKeeps(p.g, s, Accepted(p.packets), 0);
    Continues(p, s, n, TransferDone(0));
  }

  // The block's firing loads packet k.
  lemma Loads(p: Program, fifos: seq<Fifo<Token>>, ready: seq<Ready>, fired: nat, id: nat, k: nat, cells: seq<Cell>, n: nat)
    requires Reached(p, At(fifos, ready, [Firing(id, 0, Loading([k]))], fired, Works, [], cells), n)
    requires k < |cells| && cells[k] == Data(k)
    ensures
      var f := Firing(id, 0, Running(Values(cells, [k])));
      Reached(p, At(fifos, ready, [f], fired, Works, [], cells[k := Freed(k)]), n + 1)
  {
    hide Reached;
    var s := At(fifos, ready, [Firing(id, 0, Loading([k]))], fired, Works, [], cells);
    LoadsNext(p, s, n, s.fire[0][0]);
    LoadedIs(s, fifos, ready, fired, id, k, cells);
  }

  lemma LoadedIs(s: State, fifos: seq<Fifo<Token>>, ready: seq<Ready>, fired: nat, id: nat, k: nat, cells: seq<Cell>)
    requires s == At(fifos, ready, [Firing(id, 0, Loading([k]))], fired, Works, [], cells)
    requires k < |cells| && cells[k] == Data(k) && BlockOk(s, 0) && FiringOf(s.fire[0], 0) == 0
    ensures
      var f := Firing(id, 0, Running(Values(cells, [k])));
      Loaded(s, 0) == At(fifos, ready, [f], fired, Works, [], cells[k := Freed(k)])
  {
    assert [k][..0] == [];
    assert Recycle(cells, [k]) == Recycle(RecycleOne(cells, [k][0]), [k][..0]) == cells[k := Freed(k)];
    var f := Firing(id, 0, Running(Values(cells, [k])));
    assert s.fire[0][0 := f] == [f] && s.fire[0 := [f]] == [[f], []];
  }

  // The first ret results of a firing, in new cells.
  function Results(first: nat, ret: nat): seq<nat> { if ret < 2 then [first] else [first, first + 1] }

  function Cells(id: nat, ret: nat): seq<Cell> { if ret < 2 then [Made(0, id)] else [Made(0, id), Made(1, id)] }

  lemma Computes(p: Program, ins: seq<nat>, snk1: int, fifos: seq<Fifo<Token>>, ready: seq<Ready>, fired: nat, id: nat,
                 args: seq<int>, cells: seq<Cell>, n: nat, ret: nat)
    requires Reached(p, At(fifos, ready, [Firing(id, 0, Running(args))], fired, Works, [], cells), n)
    requires p.g == Two(ins, snk1) && 1 <= ret <= 2
    ensures
      var f := Firing(id, 0, Returning(Results(|cells|, ret)));
      Reached(p, At(fifos, ready, [f], fired, Sends, [], cells + Cells(id, ret)), n + 1)
  {
    hide Reached;
    var s := At(fifos, ready, [Firing(id, 0, Running(args))], fired, Works, [], cells);
    ComputesNext(p, s, n, s.fire[0][0], ret);
    ComputedIs(ins, snk1, s, fifos, ready, fired, id, args, cells, ret);
  }

  lemma ComputedIs(ins: seq<nat>, snk1: int, s: State, fifos: seq<Fifo<Token>>, ready: seq<Ready>, fired: nat, id: nat,
                   args: seq<int>, cells: seq<Cell>, ret: nat)
    requires s == At(fifos, ready, [Firing(id, 0, Running(args))], fired, Works, [], cells) && 1 <= ret <= 2
    requires BlockOk(s, 0) && FiringOf(s.fire[0], 0) == 0
    ensures
      var f := Firing(id, 0, Returning(Results(|cells|, ret)));
      Computed(Two(ins, snk1), s, 0, ret) == At(fifos, ready, [f], fired, Sends, [], cells + Cells(id, ret))
  {
    assert seq(ret, i => |s.cells| + i) == Results(|cells|, ret);
    assert NewCells(Two(ins, snk1), 0, id, args, ret) == Cells(id, ret);
    var f := Firing(id, 0, Returning(Results(|cells|, ret)));
    assert s.fire[0][0 := f] == [f] && s.fire[0 := [f]] == [[f], []] && [Works][0 := Sends] == [Sends];
  }

  // Its results go to the two edges, and the actors are swept.
  lemma Delivery(p: Program, ins: seq<nat>, snk1: int, fifos: seq<Fifo<Token>>, ready: seq<Ready>, fired: nat, id: nat,
                 results: seq<nat>, cells: seq<Cell>, n: nat)
    requires Reached(p, At(fifos, ready, [Firing(id, 0, Returning(results))], fired, Sends, [], cells), n)
    requires p.g == Two(ins, snk1) && |fifos| == 4 && InRange(fifos[1]) && InRange(fifos[2])
    ensures
      var fs := fifos[1 := Put(fifos[1], TokenFor(results, 0))][2 := Put(fifos[2], TokenFor(results, 1))];
      var u := At(fs, ready, [], fired, Rests, [], cells);
      Flow(p.g, u, Accepted(p.packets)) && Reached(p, Sweep(p.g, u, Accepted(p.packets)), n + 1)
  {
    hide Reached, Flow, WellFormed;
    var s := At(fifos, ready, [Firing(id, 0, Returning(results))], fired, Sends, [], cells);
    DeliversNext(p, s, n, s.fire[0][0]);
    ReleasedIs(ins, snk1, s, fifos, ready, fired, id, results, cells);
  }

  lemma ReleasedIs(ins: seq<nat>, snk1: int, s: State, fifos: seq<Fifo<Token>>, ready: seq<Ready>, fired: nat, id: nat,
                   results: seq<nat>, cells: seq<Cell>)
    requires s == At(fifos, ready, [Firing(id, 0, Returning(results))], fired, Sends, [], cells)
    requires WellFormed(Two(ins, snk1)) && Shaped(Two(ins, snk1), s) && BlockOk(s, 0) && FiringOf(s.fire[0], 0) == 0
    ensures
      var fs := fifos[1 := Put(fifos[1], TokenFor(results, 0))][2 := Put(fifos[2], TokenFor(results, 1))];
      && Shaped(Two(ins, snk1), Arrive(s, 0))
      && ReleaseAll(Two(ins, snk1), Arrive(s, 0), 0) == At(fs, ready, [], fired, Rests, [], cells)
  {
    var g, t := Two(ins, snk1), Arrive(s, 0);
    var f := Firing(id, 0, Lingering(results));
    assert s.fire[0][0 := f] == [f] && s.fire[0 := [f]] == [[f], []] && [Sends][0 := Rests] == [Rests];
    assert [id] + [] == [id] && s.linger[0 := [id]] == [[id], []];
    assert t == At(fifos, ready, [f], fired, Rests, [], cells).(linger := [[id], []]);
    ActorRowsIn(g, t, 0);
    TwoRows(fifos, results);
    assert Minus([id], id) == [];
    hide PutResults, WellFormed;
    var u := Release(g, t, 0);
    assert [f][1..] == [] && t.fire[0 := []] == [[], []] && t.linger[0 := []] == [[], []];
    assert ReleaseAll(g, t, 0) == ReleaseAll(g, u, 0) == u;
  }

  lemma TwoRows(fifos: seq<Fifo<Token>>, results: seq<nat>)
    requires AllInRange(fifos) && |fifos| == 4 && RowsIn(fifos, [[1], [2]])
    ensures
      PutResults(fifos, [[1], [2]], results)
      == fifos[1 := Put(fifos[1], TokenFor(results, 0))][2 := Put(fifos[2], TokenFor(results, 1))]
  {
    hide Put;
    OneRow(fifos, 1, TokenFor(results, 0));
    OneRow(fifos[1 := Put(fifos[1], TokenFor(results, 0))], 2, TokenFor(results, 1));
    assert [[1], [2]][1..] == [[2]] && [[2]][1..] == [];
  }

  lemma OneRow(fs: seq<Fifo<Token>>, e: nat, t: Token)
    requires AllInRange(fs) && e < |fs|
    ensures RowIn(fs, [e]) && PutRow(fs, [e], t) == fs[e := Put(fs[e], t)]
  {
    hide Put;
    var fs1 := fs[e := Put(fs[e], t)];
    assert [e][1..] == [];
    assert PutRow(fs, [e], t) == PutRow(fs1, [e][1..], t) == fs1;
  }

  // One firing of actor 0 from the block's report to the delivery: five events.
  lemma OneFiring(p: Program, ins: seq<nat>, snk1: int, fifos: seq<Fifo<Token>>, ready: seq<Ready>, fired: nat, block: Block,
                  cells: seq<Cell>, n: nat, k: nat, ret: nat)
    requires Reached(p, At(fifos, ready, [], fired, block, [], cells), n) && p.g == Two(ins, snk1)
    requires |fifos| == 4 && InRange(fifos[1]) && InRange(fifos[2]) && (block == Unborn || block == Rests)
    requires ready != [] && ready[0] == Ready(0, [k]) && k < |cells| && cells[k] == Data(k) && 1 <= ret <= 2
    ensures
      var results := Results(|cells|, ret);
      var fs := fifos[1 := Put(fifos[1], TokenFor(results, 0))][2 := Put(fifos[2], TokenFor(results, 1))];
      var u := At(fs, ready[1..], [], fired + 1, Rests, [], cells[k := Freed(k)] + Cells(fired, ret));
      Flow(p.g, u, Accepted(p.packets)) && Reached(p, Sweep(p.g, u, Accepted(p.packets)), n + 5)
  {
    hide Reached, Flow, Sweep, Put, Results, Cells, At;
    Reports(p, fifos, ready, fired, block, cells, n);
    var reported := block.(infifo := true);
    Takes(p, fifos, ready, fired, reported, cells, n + 1);
    assert reported.(inflight := true, actor := 0) == Works;
    Loads(p, fifos, ready[1..], fired + 1, fired, k, cells, n + 2);
    var args := Values(cells, [k]);
    Computes(p, ins, snk1, fifos, ready[1..], fired + 1, fired, args, cells[k := Freed(k)], n + 3, ret);
    Delivery(p, ins, snk1, fifos, ready[1..], fired + 1, fired, Results(|cells|, ret), cells[k := Freed(k)] + Cells(fired, ret), n + 4);
  }

  // -------------------------------------------------------------- the sweeps

  lemma Skips(g: Graph, s: State, P: int, a: nat, e: nat)
    requires Flow(g, s, P) && a < |g.actors| && e in g.actors[a].ins && e < |s.fifos| && Empty(s.fifos[e])
    ensures SweepActor(g, s, P, a) == s
  {
    assert !ActorReady(g, s, a);
  }

  lemma TakesOne(g: Graph, s: State, P: int, a: nat, t: State)
    requires Flow(g, s, P) && a < |g.actors| && ActorReady(g, s, a) && t == Consume(g, s, a)
    ensures Flow(g, t, P) && SweepActor(g, s, P, a) == SweepActor(g, t, P, a)
  {
    SuccessorsNeverBlock(g, s, P, a);
    ConsumeKeepsFlow(g, s, P, a);
  }

  lemma BothActors(ins: seq<nat>, snk1: int, s: State, P: int)
    requires Flow(Two(ins, snk1), s, P)
    ensures
      var g := Two(ins, snk1);
      Sweep(g, s, P) == SweepActor(g, SweepActor(g, s, P, 0), P, 1)
  {
    hide Flow, SweepActor;
    var g := Two(ins, snk1);
    var t := SweepActor(g, s, P, 0);
    var u := SweepActor(g, t, P, 1);
    assert SweepFrom(g, u, P, 2) == u;
    assert SweepFrom(g, t, P, 1) == SweepFrom(g, u, P, 2);
    assert SweepFrom(g, s, P, 0) == SweepFrom(g, t, P, 1);
  }

  // Actor 0 takes a packet.
  lemma FirstTakes(ins: seq<nat>, snk1: int, P: int, fifos: seq<Fifo<Token>>, ready: seq<Ready>, fired: nat, block: Block,
                   cells: seq<Cell>, k: nat)
    requires
      var s := At(fifos, ready, [], fired, block, [], cells);
      Flow(Two(ins, snk1), s, P) && |fifos| == 4 && InRange(fifos[0]) && !Empty(fifos[0]) && Head(fifos[0]) == Real(k)
    ensures
      var g, s := Two(ins, snk1), At(fifos, ready, [], fired, block, [], cells);
      var t := At(fifos[0 := Drop(fifos[0])], ready + [Ready(0, [k])], [], fired, block, [], cells);
      Flow(g, t, P) && SweepActor(g, s, P, 0) == SweepActor(g, t, P, 0)
  {
    var g, s := Two(ins, snk1), At(fifos, ready, [], fired, block, [], cells);
    OneInput(fifos, 0);
    TakesOne(g, s, P, 0, At(fifos[0 := Drop(fifos[0])], ready + [Ready(0, [k])], [], fired, block, [], cells));
  }

  lemma OneInput(fs: seq<Fifo<Token>>, e: nat)
    requires AllInRange(fs) && e < |fs| && !Empty(fs[e])
    ensures RowIn(fs, [e]) && DropRow(fs, [e]) == fs[e := Drop(fs[e])] && RealHeads(fs, [e]) == DataOf(Head(fs[e]))
  {
    hide Drop;
    var fs1 := fs[e := Drop(fs[e])];
    assert [e][1..] == [];
    assert DropRow(fs, [e]) == DropRow(fs1, [e][1..]) == fs1;
    assert RealHeads(fs, [e]) == DataOf(Head(fs[e])) + RealHeads(fs, [e][1..]) == DataOf(Head(fs[e])) + [];
  }

  // Actor 1, with the second row alone as its input, takes a real token.
  lemma SecondTakes(P: int, fifos: seq<Fifo<Token>>, ready: seq<Ready>, fired: nat, block: Block, cells: seq<Cell>, d: nat)
    requires
      var s := At(fifos, ready, [], fired, block, [], cells);
      Flow(Two([2], -1), s, P) && |fifos| == 4 && InRange(fifos[2]) && !Empty(fifos[2]) && Head(fifos[2]) == Real(d)
    ensures
      var g, s := Two([2], -1), At(fifos, ready, [], fired, block, [], cells);
      var t := At(fifos[2 := Drop(fifos[2])], ready + [Ready(1, [d])], [], fired, block, [], cells);
      Flow(g, t, P) && SweepActor(g, s, P, 1) == SweepActor(g, t, P, 1)
  {
    var g, s := Two([2], -1), At(fifos, ready, [], fired, block, [], cells);
    OneInput(fifos, 2);
    TakesOne(g, s, P, 1, At(fifos[2 := Drop(fifos[2])], ready + [Ready(1, [d])], [], fired, block, [], cells));
  }

  // A pseudo task of actor 1: what its inputs hold is lost.
  lemma SecondPasses(ins: seq<nat>, snk1: int, P: int, fifos: seq<Fifo<Token>>, ready: seq<Ready>, fired: nat, block: Block,
                     cells: seq<Cell>)
    requires
      var s := At(fifos, ready, [], fired, block, [], cells);
      Wires(ins, snk1) && Flow(Two(ins, snk1), s, P) && |fifos| == 4
    requires forall e :: 0 <= e < |fifos| ==> InRange(fifos[e])
    requires !Empty(fifos[2]) && Head(fifos[2]).Pseudo? && (snk1 == 1 ==> !Empty(fifos[1]))
    ensures
      var g, s := Two(ins, snk1), At(fifos, ready, [], fired, block, [], cells);
      var fs := if snk1 == 1 then fifos[1 := Drop(fifos[1])] else fifos;
      var t := At(fs[2 := Drop(fs[2])][3 := Put(fs[3], Pseudo)], ready, [], fired, block, [], cells);
      Flow(g, t, P) && SweepActor(g, s, P, 1) == SweepActor(g, t, P, 1)
  {
    var g, s := Two(ins, snk1), At(fifos, ready, [], fired, block, [], cells);
    var fs := if snk1 == 1 then fifos[1 := Drop(fifos[1])] else fifos;
    var t := At(fs[2 := Drop(fs[2])][3 := Put(fs[3], Pseudo)], ready, [], fired, block, [], cells);
    assert ActorReady(g, s, 1) && PseudoFirst(g, s, 1);
    forall e | 0 <= e < 4
      ensures Consume(g, s, 1).fifos[e] == t.fifos[e]
    {
      ConsumeFifos(g, s, 1, e);
    }
    assert Consume(g, s, 1).fifos == t.fifos;
    assert Consume(g, s, 1) == t;
    hide Consume, Flow, ActorReady;
    TakesOne(g, s, P, 1, t);
  }

  // -------------------------------------------------------------- the launch

  // What the fresh FIFOs' cells happen to hold.
  const Blank: seq<Token> := [Pseudo, Pseudo, Pseudo, Pseudo, Pseudo, Pseudo, Pseudo, Pseudo, Pseudo]
  const Inputs: seq<Token> := [Real(0), Real(1), Pseudo, Pseudo, Pseudo, Pseudo, Pseudo, Pseudo, Pseudo]
  const Single: seq<Token> := [Real(1), Pseudo, Pseudo, Pseudo, Pseudo, Pseudo, Pseudo, Pseudo, Pseudo]
  const Firsts: seq<Token> := [Real(2), Real(4), Pseudo, Pseudo, Pseudo, Pseudo, Pseudo, Pseudo, Pseudo]
  const Seconds: seq<Token> := [Real(3), Pseudo, Pseudo, Pseudo, Pseudo, Pseudo, Pseudo, Pseudo, Pseudo]

  // One packet; actor 1 needs both results.
  function Leaky(): Program {
    Program(Two([2, 1], 1), [Fifo(Inputs, 0, 0), Fifo(Single, 0, 0), Fifo(Blank, 0, 0), Fifo(Blank, 0, 0)], [0])
  }

  // Two packets; actor 1 needs the second result.
  function Hasty(): Program {
    Program(Two([2], -1), [Fifo(Inputs, 0, 0), Fifo(Firsts, 0, 0), Fifo(Seconds, 0, 0), Fifo(Blank, 0, 0)], [0, 0])
  }

  lemma OnePacket(fifos: seq<Fifo<Token>>, n: nat, cells: seq<Cell>)
    requires n < 2 && |cells| == n && |fifos| > 0 && fifos[0] == Fifo(Inputs, n, 0)
    ensures
      PacketInput(At(fifos, [], [], 0, Unborn, [], cells), 0)
      == At(fifos[0 := Fifo(Inputs, n + 1, 0)], [], [], 0, Unborn, [], cells + [Data(n)])
  {
    assert Put(fifos[0], Real(n)).cells == Inputs;
  }

  lemma CreatedIs(p: Program)
    requires |p.g.actors| == 2
    ensures Created(p.g, p.fs, 1) == At(p.fs, [], [], 0, Unborn, [], [])
  {
  }

  // A finished sweep of both actors, from s to t, with what each of them leaves.
  lemma SweptTo(ins: seq<nat>, snk1: int, s: State, P: int, t: State)
    requires Wires(ins, snk1) && Flow(Two(ins, snk1), s, P) && Flow(Two(ins, snk1), t, P)
    requires SweepActor(Two(ins, snk1), s, P, 0) == s && SweepActor(Two(ins, snk1), s, P, 1) == SweepActor(Two(ins, snk1), t, P, 1)
    requires |t.fifos| == 4 && Empty(t.fifos[2])
    ensures Sweep(Two(ins, snk1), s, P) == t
  {
    Skips(Two(ins, snk1), t, P, 1, 2);
    hide Flow;
    BothActors(ins, snk1, s, P);
  }

  lemma LeakyInjected()
    ensures
      var p := Leaky();
      var fs := [Fifo(Inputs, 1, 0), Fifo(Single, 0, 0), Fifo(Blank, 0, 0), Fifo(Blank, 0, 0)];
      Inject(Created(p.g, p.fs, 1), p.packets) == At(fs, [], [], 0, Unborn, [], [Data(0)])
  {
    var p := Leaky();
    CreatedIs(p);
    OnePacket(p.fs, 0, []);
    var fs := [Fifo(Inputs, 1, 0), Fifo(Single, 0, 0), Fifo(Blank, 0, 0), Fifo(Blank, 0, 0)];
    assert p.fs[0 := Fifo(Inputs, 1, 0)] == fs && [] + [Data(0)] == [Data(0)];
    hide PacketInput, Created;
    InjectOne(Created(p.g, p.fs, 1), 0);
  }

  lemma InjectOne(s: State, v: int)
    requires |s.fifos| > 0 && InRange(s.fifos[0])
    ensures Inject(s, [v]) == PacketInput(s, v)
  {
    assert [v][1..] == [];
    assert Inject(s, [v]) == Inject(PacketInput(s, v), [v][1..]);
  }

  lemma LeakySweep(s: State)
    requires s == At([Fifo(Inputs, 1, 0), Fifo(Single, 0, 0), Fifo(Blank, 0, 0), Fifo(Blank, 0, 0)],
        [], [], 0, Unborn, [], [Data(0)])
    requires Flow(Leaky().g, s, 1)
    ensures
      Sweep(Leaky().g, s, 1)
      == At([Fifo(Inputs, 1, 1), Fifo(Single, 0, 0), Fifo(Blank, 0, 0), Fifo(Blank, 0, 0)],
          [Ready(0, [0])], [], 0, Unborn, [], [Data(0)])
  {
    hide Flow, SweepActor, Sweep, WellFormed;
    var g := Leaky().g;
    var fs := [Fifo(Inputs, 1, 1), Fifo(Single, 0, 0), Fifo(Blank, 0, 0), Fifo(Blank, 0, 0)];
    assert s.fifos[0 := Drop(s.fifos[0])] == fs && [] + [Ready(0, [0])] == [Ready(0, [0])];
    FirstTakes([2, 1], 1, 1, s.fifos, [], 0, Unborn, [Data(0)], 0);
    var t := At(fs, [Ready(0, [0])], [], 0, Unborn, [], [Data(0)]);
    Skips(g, t, 1, 0, 0);
    Skips(g, t, 1, 1, 2);
    BothActors([2, 1], 1, s, 1);
  }

  lemma LeakyStarts()
    ensures
      var fs := [Fifo(Inputs, 1, 1), Fifo(Single, 0, 0), Fifo(Blank, 0, 0), Fifo(Blank, 0, 0)];
      Reached(Leaky(), At(fs, [Ready(0, [0])], [], 0, Unborn, [], [Data(0)]), 0)
  {
    var p := Leaky();
    TwoFormed([2, 1], 1);
    hide WellFormed, Flow, Sweep, Inject, Created, Reached;
    Begins(p);
    LeakyInjected();
    InjectedFlow(p.g, p.fs, 1, p.packets);
    LeakySweep(Inject(Created(p.g, p.fs, 1), p.packets));
  }

  lemma HastyInjected()
    ensures
      var p := Hasty();
      var fs := [Fifo(Inputs, 2, 0), Fifo(Firsts, 0, 0), Fifo(Seconds, 0, 0), Fifo(Blank, 0, 0)];
      Inject(Created(p.g, p.fs, 1), p.packets) == At(fs, [], [], 0, Unborn, [], [Data(0), Data(1)])
  {
    var p := Hasty();
    CreatedIs(p);
    var f1, f2, f3 := Fifo(Firsts, 0, 0), Fifo(Seconds, 0, 0), Fifo(Blank, 0, 0);
    var fs0, fs1 := [Fifo(Inputs, 1, 0), f1, f2, f3], [Fifo(Inputs, 2, 0), f1, f2, f3];
    OnePacket(p.fs, 0, []);
    OnePacket(fs0, 1, [Data(0)]);
    assert p.fs[0 := Fifo(Inputs, 1, 0)] == fs0 && [] + [Data(0)] == [Data(0)];
    assert fs0[0 := Fifo(Inputs, 2, 0)] == fs1 && [Data(0)] + [Data(1)] == [Data(0), Data(1)];
    var s := Created(p.g, p.fs, 1);
    assert [0, 0][1..] == [0];
    hide PacketInput, Created;
    assert Inject(s, [0, 0]) == Inject(PacketInput(s, 0), [0, 0][1..]);
    InjectOne(PacketInput(s, 0), 0);
  }

  lemma HastySweep(s: State)
    requires s == At([Fifo(Inputs, 2, 0), Fifo(Firsts, 0, 0), Fifo(Seconds, 0, 0), Fifo(Blank, 0, 0)],
        [], [], 0, Unborn, [], [Data(0), Data(1)])
    requires Flow(Hasty().g, s, 2)
    ensures
      var fs := [Fifo(Inputs, 2, 2), Fifo(Firsts, 0, 0), Fifo(Seconds, 0, 0), Fifo(Blank, 0, 0)];
      Sweep(Hasty().g, s, 2) == At(fs, [Ready(0, [0]), Ready(0, [1])], [], 0, Unborn, [], [Data(0), Data(1)])
  {
    hide Flow, SweepActor, Sweep, WellFormed;
    var g, cells, r0, r1 := Hasty().g, [Data(0), Data(1)], Ready(0, [0]), Ready(0, [1]);
    var f1, f2, f3 := Fifo(Firsts, 0, 0), Fifo(Seconds, 0, 0), Fifo(Blank, 0, 0);
    var fs1, fs2 := [Fifo(Inputs, 2, 1), f1, f2, f3], [Fifo(Inputs, 2, 2), f1, f2, f3];
    assert s.fifos[0 := Drop(s.fifos[0])] == fs1 && [] + [r0] == [r0];
    assert fs1[0 := Drop(fs1[0])] == fs2 && [r0] + [r1] == [r0, r1];
    FirstTakes([2], -1, 2, s.fifos, [], 0, Unborn, cells, 0);
    FirstTakes([2], -1, 2, fs1, [r0], 0, Unborn, cells, 1);
    var t := At(fs2, [r0, r1], [], 0, Unborn, [], cells);
    Skips(g, t, 2, 0, 0);
    Skips(g, t, 2, 1, 2);
    BothActors([2], -1, s, 2);
  }

  lemma HastyStarts()
    ensures
      var fs := [Fifo(Inputs, 2, 2), Fifo(Firsts, 0, 0), Fifo(Seconds, 0, 0), Fifo(Blank, 0, 0)];
      Reached(Hasty(), At(fs, [Ready(0, [0]), Ready(0, [1])], [], 0, Unborn, [], [Data(0), Data(1)]), 0)
  {
    var p := Hasty();
    TwoFormed([2], -1);
    hide WellFormed, Flow, Sweep, Inject, Created, Reached;
    Begins(p);
    HastyInjected();
    InjectedFlow(p.g, p.fs, 1, p.packets);
    HastySweep(Inject(Created(p.g, p.fs, 1), p.packets));
  }

  // ------------------------------------------------------------ the two runs

  // After six events nothing is left to happen.
  const Leaked: State := At(
    [Fifo(Inputs, 1, 1), Fifo(Single, 1, 1), Fifo(Blank, 1, 1), Fifo(Blank, 1, 0)], [], [], 1, Block(false, true, false, 0), [0],
    [Freed(0), Made(0, 0)])

  lemma LeakyPasses(s: State)
    requires s == At([Fifo(Inputs, 1, 1), Fifo(Single, 1, 0), Fifo(Blank, 1, 0), Fifo(Blank, 0, 0)],
        [], [], 1, Rests, [], [Freed(0), Made(0, 0)])
    requires Flow(Leaky().g, s, 1)
    ensures
      Sweep(Leaky().g, s, 1)
      == At([Fifo(Inputs, 1, 1), Fifo(Single, 1, 1), Fifo(Blank, 1, 1), Fifo(Blank, 1, 0)],
          [], [], 1, Rests, [], [Freed(0), Made(0, 0)])
  {
    hide Flow, SweepActor, Sweep, WellFormed;
    var fs := [Fifo(Inputs, 1, 1), Fifo(Single, 1, 1), Fifo(Blank, 1, 1), Fifo(Blank, 1, 0)];
    assert Blank[0 := Pseudo] == Blank && Put(s.fifos[3], Pseudo) == Fifo(Blank, 1, 0);
    assert s.fifos[1 := Drop(s.fifos[1])][2 := Drop(s.fifos[2])][3 := Put(s.fifos[3], Pseudo)] == fs;
    SecondPasses([2, 1], 1, 1, s.fifos, [], 1, Rests, s.cells);
    Skips(Leaky().g, s, 1, 0, 0);
    SweptTo([2, 1], 1, s, 1, At(fs, [], [], 1, Rests, [], s.cells));
  }

  lemma LeakyRuns()
    ensures Reached(Leaky(), Leaked, 6)
  {
    hide Flow, Sweep, WellFormed, Reached;
    var p := Leaky();
    LeakyStarts();
    var fs := [Fifo(Inputs, 1, 1), Fifo(Single, 0, 0), Fifo(Blank, 0, 0), Fifo(Blank, 0, 0)];
    OneFiring(p, [2, 1], 1, fs, [Ready(0, [0])], 0, Unborn, [Data(0)], 0, 0, 1);
    LeakyDelivery(fs);
    var fs1 := [Fifo(Inputs, 1, 1), Fifo(Single, 1, 0), Fifo(Blank, 1, 0), Fifo(Blank, 0, 0)];
    LeakyPasses(At(fs1, [], [], 1, Rests, [], [Freed(0), Made(0, 0)]));
    Reports(p, Leaked.fifos, [], 1, Rests, Leaked.cells, 5);
  }

  lemma LeakyDelivery(fs: seq<Fifo<Token>>)
    requires fs == [Fifo(Inputs, 1, 1), Fifo(Single, 0, 0), Fifo(Blank, 0, 0), Fifo(Blank, 0, 0)]
    ensures
      fs[1 := Put(fs[1], TokenFor(Results(1, 1), 0))][2 := Put(fs[2], TokenFor(Results(1, 1), 1))]
      == [Fifo(Inputs, 1, 1), Fifo(Single, 1, 0), Fifo(Blank, 1, 0), Fifo(Blank, 0, 0)]
    ensures [Data(0)][0 := Freed(0)] + Cells(0, 1) == [Freed(0), Made(0, 0)] && [Ready(0, [0])][1..] == []
  {
    assert Put(fs[1], Real(1)) == Fifo(Single, 1, 0) && Put(fs[2], Pseudo) == Fifo(Blank, 1, 0);
  }

  // Half way: firing 0 has returned both results, and actor 1's firing 0 is ready.
  const Half: State := At(
    [Fifo(Inputs, 2, 2), Fifo(Firsts, 1, 0), Fifo(Seconds, 1, 1), Fifo(Blank, 0, 0)], [Ready(0, [1]), Ready(1, [3])], [], 1, Rests, [],
    [Freed(0), Data(1), Made(0, 0), Made(1, 0)])

  const Overtaken: State := At(
    [Fifo(Inputs, 2, 2), Fifo(Firsts, 2, 0), Fifo(Seconds, 2, 2), Fifo(Blank, 1, 0)], [Ready(1, [3])], [], 2, Rests, [],
    [Freed(0), Freed(1), Made(0, 0), Made(1, 0), Made(0, 1)])

  lemma HalfSwept(s: State)
    requires s.fifos == [Fifo(Inputs, 2, 2), Fifo(Firsts, 1, 0), Fifo(Seconds, 1, 0), Fifo(Blank, 0, 0)]
    requires s == At(s.fifos, [Ready(0, [1])], [], 1, Rests, [], Half.cells) && Flow(Hasty().g, s, 2)
    ensures Sweep(Hasty().g, s, 2) == Half
  {
    hide Flow, SweepActor, Sweep, WellFormed;
    assert s.fifos[2 := Drop(s.fifos[2])] == Half.fifos && [Ready(0, [1])] + [Ready(1, [3])] == Half.ready;
    SecondTakes(2, s.fifos, [Ready(0, [1])], 1, Rests, Half.cells, 3);
    Skips(Hasty().g, s, 2, 0, 0);
    SweptTo([2], -1, s, 2, Half);
  }

  lemma HalfDelivery(fs: seq<Fifo<Token>>)
    requires fs == [Fifo(Inputs, 2, 2), Fifo(Firsts, 0, 0), Fifo(Seconds, 0, 0), Fifo(Blank, 0, 0)]
    ensures
      fs[1 := Put(fs[1], TokenFor(Results(2, 2), 0))][2 := Put(fs[2], TokenFor(Results(2, 2), 1))]
      == [Fifo(Inputs, 2, 2), Fifo(Firsts, 1, 0), Fifo(Seconds, 1, 0), Fifo(Blank, 0, 0)]
    ensures [Data(0), Data(1)][0 := Freed(0)] + Cells(0, 2) == Half.cells
    ensures [Ready(0, [0]), Ready(0, [1])][1..] == [Ready(0, [1])]
  {
    assert Put(fs[1], Real(2)) == Fifo(Firsts, 1, 0) && Put(fs[2], Real(3)) == Fifo(Seconds, 1, 0);
  }

  lemma HastyHalf()
    ensures Reached(Hasty(), Half, 5)
  {
    hide Flow, Sweep, WellFormed, Reached;
    HastyStarts();
    var fs := [Fifo(Inputs, 2, 2), Fifo(Firsts, 0, 0), Fifo(Seconds, 0, 0), Fifo(Blank, 0, 0)];
    OneFiring(Hasty(), [2], -1, fs, [Ready(0, [0]), Ready(0, [1])], 0, Unborn, [Data(0), Data(1)], 0, 0, 2);
    HalfDelivery(fs);
    var fs1 := [Fifo(Inputs, 2, 2), Fifo(Firsts, 1, 0), Fifo(Seconds, 1, 0), Fifo(Blank, 0, 0)];
    HalfSwept(At(fs1, [Ready(0, [1])], [], 1, Rests, [], Half.cells));
  }

  lemma OvertakenSwept(s: State)
    requires s.fifos == [Fifo(Inputs, 2, 2), Fifo(Firsts, 2, 0), Fifo(Seconds, 2, 1), Fifo(Blank, 0, 0)]
    requires s == At(s.fifos, [Ready(1, [3])], [], 2, Rests, [], Overtaken.cells) && Flow(Hasty().g, s, 2)
    ensures Sweep(Hasty().g, s, 2) == Overtaken
  {
    hide Flow, SweepActor, Sweep, WellFormed;
    assert Blank[0 := Pseudo] == Blank && Put(s.fifos[3], Pseudo) == Fifo(Blank, 1, 0);
    assert s.fifos[2 := Drop(s.fifos[2])][3 := Put(s.fifos[3], Pseudo)] == Overtaken.fifos;
    SecondPasses([2], -1, 2, s.fifos, [Ready(1, [3])], 2, Rests, Overtaken.cells);
    Skips(Hasty().g, s, 2, 0, 0);
    SweptTo([2], -1, s, 2, Overtaken);
  }

  lemma OvertakenDelivery(fs: seq<Fifo<Token>>)
    requires fs == Half.fifos
    ensures
      fs[1 := Put(fs[1], TokenFor(Results(4, 1), 0))][2 := Put(fs[2], TokenFor(Results(4, 1), 1))]
      == [Fifo(Inputs, 2, 2), Fifo(Firsts, 2, 0), Fifo(Seconds, 2, 1), Fifo(Blank, 0, 0)]
    ensures Half.cells[1 := Freed(1)] + Cells(1, 1) == Overtaken.cells
    ensures Half.ready[1..] == [Ready(1, [3])]
  {
    assert Put(fs[1], Real(4)) == Fifo(Firsts, 2, 0) && Put(fs[2], Pseudo) == Fifo(Seconds, 2, 1);
  }

  lemma HastyRuns()
    ensures Reached(Hasty(), Overtaken, 10)
  {
    hide Flow, Sweep, WellFormed, Reached;
    HastyHalf();
    OneFiring(Hasty(), [2], -1, Half.fifos, Half.ready, 1, Rests, Half.cells, 5, 1, 1);
    OvertakenDelivery(Half.fifos);
    var fs1 := [Fifo(Inputs, 2, 2), Fifo(Firsts, 2, 0), Fifo(Seconds, 2, 1), Fifo(Blank, 0, 0)];
    OvertakenSwept(At(fs1, [Ready(1, [3])], [], 2, Rests, [], Overtaken.cells));
  }

  lemma WrittenToo(p: Program, s: State, n: nat) returns (ss: seq<State>, evs: seq<Event>)
    requires Reached(p, s, n) && |p.packets| <= 2
    ensures RunFrom(p.g, p.fs, 1, p.packets, ss, evs) && WrittenRun(p.g, |p.packets|, ss, evs)
    ensures |evs| == n && |ss| == n + 1 && ss[n] == s && Inv(p.g, s, |p.packets|) && Sized(p.g, s)
  {
    ss, evs :| RunTo(p, ss, evs, s, n);
    hide Run, WrittenRun, Inv;
    TwoPacketRuns(p.g, |p.packets|, ss, evs);
  }

  // A run of the program as written that has come to its end: the pseudo task of
  // actor 1 dropped the one token for cell 1, which was never freed and which no
  // output holds.
  lemma PseudoLeaks() returns (ss: seq<State>, evs: seq<Event>)
    ensures
      var p := Leaky();
      && RunFrom(p.g, p.fs, 1, p.packets, ss, evs) && WrittenRun(p.g, 1, ss, evs)
      && |evs| == 6 && |ss| == 7 && Finished(ss[6]) && 1 < |ss[6].cells|
      && RunDrops(p.g, p.fs, 1, p.packets, ss, evs, 6, 1) == 1
      && !ss[6].cells[1].freed && !OnOutput(p.g, ss[6], 1, 1)
  {
    hide Reached, RunFrom, WrittenRun, RunDrops, Finished, OnOutput, Shares, Inv;
    var p := Leaky();
    LeakyRuns();
    ss, evs := WrittenToo(p, Leaked, 6);
    CountIsTokens(p.g, p.fs, 1, p.packets, ss, evs, 6, 1);
    NoTokenLeft();
    LeakedIsFinished();
  }

  lemma NoTokenLeft()
    ensures Shares(Leaky().g, Leaked, 1) == 0 && !OnOutput(Leaky().g, Leaked, 1, 1)
  {
    var fs := Leaked.fifos;
    OnlyInFifos(Leaky().g, Leaked, 1);
    if InFifos(fs, 1) > 0 {
      var e := SomeFifo(fs, 1);
      var i := SomeToken(fs[e].cells[fs[e].rptr..fs[e].wptr], 1);
      assert false;
    }
  }

  lemma LeakedIsFinished()
    requires Inv(Leaky().g, Leaked, 1)
    ensures Finished(Leaked)
  {
    assert BlockOk(Leaked, 0);
  }

  // Firing 0 of actor 1, on result 1 of actor 0's firing 0, is still ready, and
  // place 0 on edge 3 is taken by the pseudo token of firing 1.
  ghost predicate TooEarly(g: Graph, s: State) {
    && Sized(g, s) && |g.actors| == 2 && Consumed(g, s, 1) == 2 && ReadyOf(s.ready, 1) == [[3]]
    && |s.cells| == 5 && s.cells[3].origin == Result(0, 1, 0)
    && |s.fifos| == 4 && g.src[3] == 1 && s.fifos[3].wptr == 1 && Contents(s.fifos[3]) == [Pseudo]
  }

  // A run of the program as written gets there.
  lemma PseudoOvertakes() returns (ss: seq<State>, evs: seq<Event>)
    ensures
      var p := Hasty();
      && RunFrom(p.g, p.fs, 1, p.packets, ss, evs) && WrittenRun(p.g, 2, ss, evs)
      && |evs| == 10 && |ss| == 11 && TooEarly(p.g, ss[10])
  {
    hide Reached, RunFrom, WrittenRun, Inv, TooEarly, Sized;
    HastyRuns();
    ss, evs := WrittenToo(Hasty(), Overtaken, 10);
    OvertakenIsTooEarly();
  }

  lemma OvertakenIsTooEarly()
    requires Sized(Hasty().g, Overtaken)
    ensures TooEarly(Hasty().g, Overtaken)
  {
    hide WellFormed, Shaped, Sized;
    assert HasEnds(Hasty().g, Overtaken, 1);
    assert [Ready(1, [3])][..0] == [];
    assert Overtaken.fifos[3] == Fifo(Blank, 1, 0) && Blank[0..1] == [Pseudo];
  }
}
