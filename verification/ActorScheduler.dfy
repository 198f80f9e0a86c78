// The scheduler's code: the globals as fields, the handlers as methods, each
// proved to make exactly the step that SchedulerRuns reasons about.
module ActorScheduler {
  import opened Machine
  import opened TokenFifo
  import opened Dataflow
  import opened TokenFlow
  import opened SchedulerSteps
  import opened SchedulerInvariants
  import opened SchedulerRuns
  import opened LingerDrain
  import opened WrittenHandler
  import SchedulerEffects

  // These inputs still hold what they held before.
  ghost predicate Untouched(was: seq<Fifo<Token>>, fs: seq<Fifo<Token>>, row: seq<nat>) {
    && |fs| == |was| && RowIn(was, row) && RowIn(fs, row) && DistinctRow(row)
    && (forall j :: 0 <= j < |row| ==> !Empty(was[row[j]]) && fs[row[j]] == was[row[j]])
  }

  lemma TakeStep(was: seq<Fifo<Token>>, fs: seq<Fifo<Token>>, row: seq<nat>)
    requires Untouched(was, fs, row) && row != []
    ensures
      var fs', rest := fs[row[0] := Drop(fs[row[0]])], row[1..];
      && Untouched(was, fs', rest) && DropRow(fs', rest) == DropRow(fs, row)
      && RealHeads(was, row) == DataOf(Head(fs[row[0]])) + RealHeads(was, rest)
  {
    DistinctTail(row);
    var rest := row[1..];
    assert forall j :: 0 <= j < |rest| ==> rest[j] == row[j + 1] && rest[j] in rest;
  }

  // Without the oldest firing and the newest linger.
  lemma TailLists(fire: seq<Firing>, held: seq<Firing>, linger: seq<nat>)
    requires fire != [] && linger != []
    ensures Entries(fire[1..]) == Entries(fire)[1..] && Lingers(held, linger[1..]) == Lingers(held, linger)[1..]
    ensures |fire| > 1 ==> Entries(fire)[1].block == fire[1..][0].block
  {
  }

  // While a linger is left there are firings left, and the end is still to come.
  lemma StillDraining(d0: LingerDrain.Drain, n: nat, last: nat)
    requires Begun(d0) && |d0.linger| <= |d0.fire| && Visits(d0, last).linger == [] && Visits(d0, n).linger != []
    ensures n < last && Visits(d0, n).fire != []
  {
    VisitsKeepAfter(d0, n);
    if last <= n { EndedStays(d0, last, n); }
  }

  lemma NextVisit(d0: LingerDrain.Drain, n: nat)
    ensures Visits(d0, n + 1) == Visit(Visits(d0, n))
  {
  }

  lemma Drained(d0: LingerDrain.Drain, n: nat, last: nat)
    requires Visits(d0, last).linger == [] && Visits(d0, n).linger == []
    ensures Visits(d0, n) == Visits(d0, last)
  {
    if n <= last { EndedStays(d0, n, last); } else { EndedStays(d0, last, n); }
  }

  // With the oldest result passed on, the drain begins with the lists as they
  // were before it arrived; when it ends, the results are delivered.
  lemma DrainBegins(g: Graph, s: State, P: int, b: nat) returns (last: nat)
    requires Delivering(g, s, P, b) && Ends(DrainOf(s, s.blocks[b].actor))
    ensures
      var a, t, d := s.blocks[b].actor, Arrive(s, b), DrainOf(s, s.blocks[b].actor);
      && a < |g.actors| && WellFormed(g) && Shaped(g, t) && t.fire[a] != [] && t.linger[a] != []
      && BeginsAt(d, t.fire[a], t.linger[a], b) && Visits(d, last).linger == []
      && |Visits(d, last).released| < |t.fire[a]| && |Visits(d, last).released| < |t.linger[a]|
      && Delivered(g, s, P, b) == PassAll(g, WrittenHandler.PassResult(g, t, a, ResultsOf(t.fire[a], t.fire[a][0].id)),
                                          a, t.fire[a], Visits(d, last).released)
  {
    DrainReady(g, s, P, b);
    last := LastVisit(DrainOf(s, s.blocks[b].actor));
    hide Delivering, Inv, Visits, Outcome, Ends, WellFormed, Shaped, BeginsAt, DrainOf;
    var a, t := s.blocks[b].actor, Arrive(s, b);
    assert t.fire[a][0].id == s.fire[a][0].id;
    hide Arrive;
    PassFirst(g, t, a, t.fire[a], Entry(s.fire[a][0].id, b), Outcome(DrainOf(s, a)));
  }

  lemma DrainReady(g: Graph, s: State, P: int, b: nat)
    requires Delivering(g, s, P, b) && Ends(DrainOf(s, s.blocks[b].actor))
    ensures
      var a, t, d := s.blocks[b].actor, Arrive(s, b), DrainOf(s, s.blocks[b].actor);
      && a < |g.actors| == |s.fire| && WellFormed(g) && Shaped(g, t) && t.fire[a] != [] && t.linger[a] != []
      && BeginsAt(d, t.fire[a], t.linger[a], b) && t.fire[a][0].id == s.fire[a][0].id
      && |Outcome(d)| < |t.fire[a]| && |Outcome(d)| < |t.linger[a]|
  {
    ArrivesFirst(g, s, P, b);
    var a, t := s.blocks[b].actor, Arrive(s, b);
    WaitingBehindOldest(g, s, P, a);
    OutcomeFits(g, s, P, b);
    assert WellFormed(g) && a < |g.actors| && Shaped(g, t);
    hide Delivering, Arrive, Inv, Visits, Outcome, Ends, WellFormed, Shaped;
    SameBlocks(s.fire[a], t.fire[a], s.linger[a]);
  }

  lemma LastVisit(d: LingerDrain.Drain) returns (last: nat)
    requires Ends(d)
    ensures Visits(d, last).linger == [] && Visits(d, last).released == Outcome(d)
  {
    last :| Visits(d, last).linger == [] && Visits(d, last).released == Outcome(d);
  }

  // The drain that follows the oldest result of these lists.
  ghost predicate BeginsAt(d: LingerDrain.Drain, held: seq<Firing>, linger: seq<nat>, b: nat)
    requires held != [] && linger != []
  {
    && Begun(d) && |d.linger| <= |d.fire| && Entries(held[1..]) == d.fire && Lingers(held, linger[1..]) == d.linger
    && d.ideal == (if |held| > 1 then held[1].block else b)
  }

  lemma SameBlocks(fire: seq<Firing>, held: seq<Firing>, linger: seq<nat>)
    requires fire != [] && |held| == |fire| && held == fire[0 := held[0]]
    requires held[0].id == fire[0].id && held[0].block == fire[0].block
    ensures Entries(held[1..]) == Entries(fire)[1..] && Lingers(held, linger) == Lingers(fire, linger)
  {
    forall id
      ensures EntryOf(held, id) == EntryOf(fire, id)
    {
      assert held[1..] == fire[1..];
    }
  }

  lemma FromTailTwice(list: seq<nat>)
    ensures FromTail(FromTail(list)) == list
  {
  }

  class Scheduler {
    const g: Graph
    var fifos: seq<Fifo<Token>>
    var ready: seq<Ready>
    var fire: seq<seq<Firing>>
    var linger: seq<seq<nat>>
    var fired: seq<nat>
    var blocks: seq<Block>
    var idle: seq<nat>
    var cells: seq<Cell>

    ghost function Now(): State
      reads this
    {
      State(fifos, ready, fire, linger, fired, blocks, idle, cells)
    }

    // The lists are created, the edges made, and no block has reported yet.
    constructor (graph: Graph, edges: seq<Fifo<Token>>, nblocks: nat)
      requires WellFormed(graph) && FreshFifos(graph, edges)
      ensures g == graph && Now() == Created(graph, edges, nblocks)
    {
      var n := |graph.actors|;
      g := graph;
      fifos, ready, idle, cells := edges, [], [], [];
      fire, linger, fired := seq(n, _ => []), seq(n, _ => []), seq(n, _ => 0);
      blocks := seq(nblocks, _ => Block(false, false, false, -1));
    }

    // --------------------------------------------------------- making ready

    method ActorReady(a: nat) returns (yes: bool)
      requires WellFormed(g) && Shaped(g, Now()) && a < |g.actors|
      ensures yes <==> Dataflow.ActorReady(g, Now(), a)
      ensures yes <==> forall e :: e in g.actors[a].ins && e < |fifos| ==> fifos[e].rptr != fifos[e].wptr
    {
      var ins := g.actors[a].ins;
      ActorRowsIn(g, Now(), a);
      for i := 0 to |ins|
        invariant forall j :: 0 <= j < i ==> !Empty(fifos[ins[j]])
      {
        assert ins[i] in ins;
        if Empty(fifos[ins[i]]) { return false; }
      }
      return true;
    }

    method SuccessorFull(a: nat) returns (yes: bool)
      requires WellFormed(g) && Shaped(g, Now()) && a < |g.actors|
      ensures yes <==> Dataflow.SuccessorFull(g, Now(), a)
      ensures yes <==> forall i, e :: 0 <= i < |g.actors[a].outs| && e in g.actors[a].outs[i] && e < |fifos| ==> Full(fifos[e])
    {
      var outs := g.actors[a].outs;
      ActorRowsIn(g, Now(), a);
      yes := true;
      for i := 0 to |outs|
        invariant yes <==> forall x, e :: 0 <= x < i && e in outs[x] && e < |fifos| ==> Full(fifos[e])
      {
        assert RowIn(fifos, outs[i]);
        ghost var before := yes;
        for j := 0 to |outs[i]|
          invariant yes <==> before && forall y :: 0 <= y < j ==> Full(fifos[outs[i][y]])
        {
          yes := yes && Full(fifos[outs[i][j]]);
        }
      }
    }

    method FireCheck(a: nat) returns (yes: bool)
      requires WellFormed(g) && Shaped(g, Now()) && a < |g.actors|
      ensures yes <==> Dataflow.FireCheck(g, Now(), a)
    {
      yes := ActorReady(a);
      if yes {
        var full := SuccessorFull(a);
        yes := !full;
      }
    }

    // get_token on each FIFO of a row; the real tokens' data are kept.
    method TakeTokens(row: seq<nat>) returns (deps: seq<nat>)
      requires Untouched(fifos, fifos, row)
      modifies this`fifos
      ensures |fifos| == |old(fifos)| && AllInRange(fifos)
      ensures fifos == DropRow(old(fifos), row) && deps == RealHeads(old(fifos), row)
    {
      ghost var was := fifos;
      deps := [];
      assert row[0..] == row;
      for i := 0 to |row|
        invariant Untouched(was, fifos, row[i..]) && DropRow(fifos, row[i..]) == DropRow(was, row)
        invariant deps + RealHeads(was, row[i..]) == RealHeads(was, row)
      {
        var e := row[i];
        assert row[i..][0] == e && row[i..][1..] == row[i + 1..];
        TakeStep(was, fifos, row[i..]);
        deps := deps + DataOf(Head(fifos[e]));
        fifos := fifos[e := Drop(fifos[e])];
      }
      assert row[|row|..] == [];
    }

    // Takes one token off every input; a pseudo task has no descriptor.
    method ReadyCreate(a: nat) returns (entry: Option<Ready>)
      requires WellFormed(g) && Shaped(g, Now()) && a < |g.actors| && Dataflow.ActorReady(g, Now(), a)
      modifies this`fifos
      ensures Shaped(g, Now()) && fifos == Taken(g, old(Now()), a)
      ensures entry == if PseudoFirst(g, old(Now()), a) then None else Some(Ready(a, HeadsOf(g, old(Now()), a)))
    {
      var ins := g.actors[a].ins;
      ActorRowsIn(g, Now(), a);
      assert forall i :: 0 <= i < |ins| ==> ins[i] in ins;
      var pseudo := Head(fifos[ins[0]]).Pseudo?;
      var deps := TakeTokens(ins);
      entry := if pseudo then None else Some(Ready(a, deps));
    }

    // The pseudo task's results: a pseudo token for every successor FIFO.
    method ForwardPseudo(a: nat)
      requires WellFormed(g) && Shaped(g, Now()) && a < |g.actors|
      modifies this`fifos
      ensures Shaped(g, Now())
      ensures RowsIn(old(fifos), g.actors[a].outs) && fifos == PutResults(old(fifos), g.actors[a].outs, [])
    {
      ActorRowsIn(g, Now(), a);
      assert FromTail([]) == [];
      PutTokens(g.actors[a].outs, []);
    }

    // put_token on every FIFO of every result row.  The token list is walked from
    // its tail: real tokens while there are any, pseudo tokens after.
    method PutTokens(rows: seq<seq<nat>>, list: seq<nat>)
      requires RowsIn(fifos, rows) && AllInRange(fifos)
      modifies this`fifos
      ensures |fifos| == |old(fifos)| && AllInRange(fifos)
      ensures fifos == PutResults(old(fifos), rows, FromTail(list))
    {
      ghost var was, toks := fifos, FromTail(list);
      var p := |list|;
      for i := 0 to |rows|
        invariant |fifos| == |was| && AllInRange(fifos) && RowsIn(fifos, rows[i..])
        invariant 0 <= p <= |list| && |list| - p == if i <= |toks| then i else |toks|
        invariant PutResults(fifos, rows[i..], toks[|list| - p..]) == PutResults(was, rows, toks)
      {
        ghost var rest := toks[|list| - p..];
        var row := rows[i];
        assert rows[i..][0] == row && rows[i..][1..] == rows[i + 1..];
        var t := if p > 0 then Real(list[p - 1]) else Pseudo;
        RowsInTail(fifos, rows[i..], t);
        ghost var before := fifos;
        for j := 0 to |row|
          invariant |fifos| == |was| && RowIn(fifos, row[j..])
          invariant PutRow(fifos, row[j..], t) == PutRow(before, row, t)
        {
          assert row[j..][0] == row[j] && row[j..][1..] == row[j + 1..];
          fifos := fifos[row[j] := Put(fifos[row[j]], t)];
        }
        assert row[|row|..] == [] && fifos == PutRow(before, row, t);
        if p > 0 {
          assert rest[0] == list[p - 1] && rest[1..] == toks[|list| - p + 1..];
          p := p - 1;
        }
      }
      assert rows[|rows|..] == [];
    }

    // One turn of ready_search's inner loop.
    method MakeReady(a: nat)
      requires WellFormed(g) && Shaped(g, Now()) && a < |g.actors| && Dataflow.ActorReady(g, Now(), a)
      modifies this`fifos, this`ready
      ensures Now() == Consume(g, old(Now()), a)
    {
      var entry := ReadyCreate(a);
      if entry.Some? {
        ready := ready + [entry.value];
      } else {
        ForwardPseudo(a);
      }
    }

    // The inner loop: the actor becomes ready as often as its tokens allow.
    method MakeAllReady(a: nat, ghost P: int)
      requires Flow(g, Now(), P) && a < |g.actors|
      modifies this`fifos, this`ready
      ensures Flow(g, Now(), P) && Now() == SweepActor(g, old(Now()), P, a)
    {
      ghost var was := Now();
      FlowBounds(g, Now(), P, a);
      var go := FireCheck(a);
      while go
        invariant Flow(g, Now(), P) && go == Dataflow.FireCheck(g, Now(), a)
        invariant SweepActor(g, Now(), P, a) == SweepActor(g, was, P, a)
        decreases P - Consumed(g, Now(), a), go
      {
        ghost var s := Now();
        FlowBounds(g, s, P, a);
        ConsumeKeepsFlow(g, s, P, a);
        ConsumeActor(g, s, P, a, a);
        hide Flow, Consume;
        MakeReady(a);
        go := FireCheck(a);
      }
    }

    // ready_search: every actor in creation order.
    method ReadySearch(ghost P: int)
      requires Flow(g, Now(), P)
      modifies this`fifos, this`ready
      ensures Flow(g, Now(), P) && Now() == Sweep(g, old(Now()), P)
    {
      ghost var was := Now();
      for a := 0 to |g.actors|
        invariant Flow(g, Now(), P) && SweepFrom(g, Now(), P, a) == Sweep(g, was, P)
      {
        MakeAllReady(a, P);
      }
    }

    // ---------------------------------------------------------- actor_check

    method ReadySelect(last: int) returns (r: nat)
      requires ready != []
      ensures r == Select(ready, last) && r < |ready|
      ensures (exists i :: 0 <= i < |ready| && ready[i].actor == last) ==>
        ready[r].actor == last && forall i :: 0 <= i < r ==> ready[i].actor != last
      ensures (forall i :: 0 <= i < |ready| ==> ready[i].actor != last) ==> r == 0
    {
      SchedulerEffects.SelectIsPreferred(ready, last);
      for i := 0 to |ready|
        invariant FirstOf(ready, last) == i + FirstOf(ready[i..], last)
      {
        assert ready[i..][0] == ready[i] && ready[i..][1..] == ready[i + 1..];
        if ready[i].actor == last { return i; }
      }
      return 0;
    }

    // One turn of the endless loop.
    method ActorCheck(ghost P: int)
      requires Inv(g, Now(), P)
      modifies this
      ensures Inv(g, Now(), P)
      ensures Now() == if old(idle == [] || ready == []) then old(Now()) else Next(g, old(Now()), P, Check)
      ensures old(idle != [] && ready != []) ==> exists r :: SchedulerEffects.HandedOut(old(Now()), Now(), r)
    {
      if idle == [] || ready == [] { return; }
      assert Enabled(Now(), Check);
      SchedulerEffects.CheckHandsOut(g, Now(), P);
      NextKeepsInv(g, Now(), P, Check);
      assert idle[0] in idle;
      hide SchedulerEffects.HandedOut, Inv, HandOut;
      FireOldest();
    }

    // The longest idle block takes the selected entry.
    method FireOldest()
      requires idle != [] && ready != [] && idle[0] < |blocks|
      requires |fire| == |fired| && forall i :: 0 <= i < |ready| ==> ready[i].actor < |fire|
      modifies this
      ensures Now() == HandOut(old(Now()))
    {
      var b := idle[0];
      idle := idle[1..];
      var r := ReadySelect(blocks[b].actor);
      var a := ready[r].actor;
      blocks := blocks[b := blocks[b].(inflight := true)];
      fire := fire[a := fire[a] + [Firing(fired[a], b, Loading(ready[r].deps))]];
      fired := fired[a := fired[a] + 1];
      blocks := blocks[b := blocks[b].(actor := a)];
      ready := RemoveAt(ready, r);
    }

    // -------------------------------------------------------- block_handler

    // Data cells for the results the block returned, as many as the task has
    // result rows at most; a cell's count is the number of FIFOs in its row.
    method AllocResult(b: nat, ret: nat)
      requires WellFormed(g) && |fire| == |g.actors|
      requires b < |blocks| && BlockOk(Now(), b) && blocks[b].inflight && StageOf(Now(), b).Running?
      modifies this`cells, this`fire
      ensures Now().(blocks := blocks[b := blocks[b].(result := true)]) == Computed(g, old(Now()), b, ret)
      ensures
        var a, was := blocks[b].actor, old(cells);
        var rows, f := g.actors[a].outs, old(fire[a][FiringOf(fire[a], b)]);
        && |cells| == |was| + (if ret < |rows| then ret else |rows|) && cells[..|was|] == was
        && forall i :: |was| <= i < |cells| ==>
             cells[i] == Cell(g.compute(a, i - |was|, f.stage.args), |rows[i - |was|]|, false, Result(a, i - |was|, f.id))
    {
      var a := blocks[b].actor;
      var k := FiringOf(fire[a], b);
      var f := fire[a][k];
      var outs := g.actors[a].outs;
      var n := if ret < |outs| then ret else |outs|;
      var results := MakeCells(a, f.id, f.stage.args, n);
      fire := fire[a := fire[a][k := f.(stage := Returning(results))]];
    }

    // A data cell for each of the first n results; its count is found by walking
    // the row of its FIFOs.
    method MakeCells(a: nat, id: nat, args: seq<int>, n: nat) returns (results: seq<nat>)
      requires a < |g.actors| && n <= |g.actors[a].outs|
      modifies this`cells
      ensures cells == old(cells) + NewCells(g, a, id, args, n)
      ensures results == seq(n, j => |old(cells)| + j)
    {
      ghost var was := cells;
      var outs := g.actors[a].outs;
      results := [];
      for i := 0 to n
        invariant cells == was + NewCells(g, a, id, args, i)
        invariant results == seq(i, j => |was| + j)
      {
        var cnt := 0;
        for j := 0 to |outs[i]|
          invariant cnt == j
        {
          cnt := cnt + 1;
        }
        results := results + [|cells|];
        cells := cells + [Cell(g.compute(a, i, args), cnt, false, Result(a, i, id))];
      }
    }

    method BlockHandler(b: nat, ret: nat, ghost P: int)
      requires Inv(g, Now(), P) && Enabled(Now(), Interrupt(b, ret))
      modifies this
      ensures Inv(g, Now(), P) && Now() == Next(g, old(Now()), P, Interrupt(b, ret))
      ensures old(blocks[b].inflight) ==> exists a, k :: SchedulerEffects.Returned(g, old(Now()), Now(), b, ret, a, k)
    {
      if blocks[b].inflight { SchedulerEffects.InterruptReturns(g, Now(), P, b, ret); }
      hide SchedulerEffects.Returned;
      NextKeepsInv(g, Now(), P, Interrupt(b, ret));
      assert BlockOk(Now(), b);
      if blocks[b].inflight {
        AllocResult(b, ret);
        blocks := blocks[b := blocks[b].(result := true)];
      }
      if !blocks[b].infifo {
        blocks := blocks[b := blocks[b].(infifo := true)];
        idle := idle + [b];
      }
    }

    // ------------------------------------------------- transfer-done handler

    method RecycleGarbage(deps: seq<nat>)
      modifies this`cells
      ensures cells == Recycle(old(cells), deps)
    {
      var n := |deps|;
      assert deps[..n] == deps;
      while n > 0
        invariant 0 <= n <= |deps| && |cells| == |old(cells)|
        invariant Recycle(cells, deps[..n]) == Recycle(old(cells), deps)
      {
        var d := deps[n - 1];
        assert deps[..n][..n - 1] == deps[..n - 1];
        if d < |cells| && cells[d].cnt == 1 {
          cells := cells[d := cells[d].(freed := true)];
        } else if d < |cells| {
          cells := cells[d := cells[d].(cnt := cells[d].cnt - 1)];
        }
        n := n - 1;
      }
    }

    // scheduler_pass_result on a token list, newest first: the results go out, the
    // oldest firing and the newest linger go, and the next expected block is read
    // off the fire list.
    method PassResult(a: nat, list: seq<nat>, ideal: nat) returns (next: nat)
      requires WellFormed(g) && Shaped(g, Now()) && a < |g.actors| && fire[a] != [] && linger[a] != []
      modifies this`fifos, this`fire, this`linger
      ensures Shaped(g, Now()) && Now() == WrittenHandler.PassResult(g, old(Now()), a, FromTail(list))
      ensures next == if fire[a] != [] then fire[a][0].block else ideal
    {
      ActorRowsIn(g, Now(), a);
      PutTokens(g.actors[a].outs, list);
      fire := fire[a := fire[a][1..]];
      linger := linger[a := linger[a][1..]];
      next := if fire[a] != [] then fire[a][0].block else ideal;
    }

    // linger_insert; the block has nothing more to do with this firing.
    method LingerInsert(b: nat)
      requires |linger| == |fire|
      requires b < |blocks| && BlockOk(Now(), b) && blocks[b].inflight && StageOf(Now(), b).Returning?
      modifies this`fire, this`linger, this`blocks
      ensures Now() == Arrive(old(Now()), b)
    {
      var a := blocks[b].actor;
      var k := FiringOf(fire[a], b);
      linger := linger[a := [fire[a][k].id] + linger[a]];
      fire := fire[a := fire[a][k := fire[a][k].(stage := Lingering(fire[a][k].stage.results))]];
      blocks := blocks[b := Block(false, false, false, a)];
    }

    // The drain, begun in state t, is at d; held are the firings then.
    ghost predicate Draining(t: State, a: nat, held: seq<Firing>, d: LingerDrain.Drain, ideal: nat)
      reads this
    {
      && WellFormed(g) && Shaped(g, t) && Shaped(g, Now())
      && a < |g.actors| && |d.released| <= |t.fire[a]| && |d.released| <= |t.linger[a]| && Now() == PassAll(g, t, a, held, d.released)
      && Entries(fire[a]) == d.fire && Lingers(held, linger[a]) == d.linger && d.ideal == ideal
    }

    ghost predicate ListsFit(a: nat, d: LingerDrain.Drain)
      reads this
    {
      a < |linger| == |fire| && |linger[a]| == |d.linger| && |fire[a]| == |d.fire|
    }

    // check_if_done at one node of the linger list.  The walk goes on behind that
    // node, which keeps its number when the head has gone.
    method CheckIfDone(a: nat, held: seq<Firing>, pos: nat, ideal: nat, ghost t: State, ghost d: LingerDrain.Drain)
      returns (ideal': nat, pos': nat)
      requires Draining(t, a, held, d, ideal) && ListsFit(a, d) && d.pos == pos < |linger[a]| && fire[a] != []
      modifies this`fifos, this`fire, this`linger
      ensures Draining(t, a, held, Visit(d), ideal') && ListsFit(a, Visit(d)) && Visit(d).pos == pos'
    {
      var id := linger[a][pos];
      pos', ideal' := pos + 1, ideal;
      if EntryOf(held, id).block == ideal {
        ghost var more := d.released + [EntryOf(held, id)];
        assert more[..|more| - 1] == d.released;
        TailLists(fire[a], held, linger[a]);
        FromTailTwice(ResultsOf(held, id));
        ideal' := PassResult(a, FromTail(ResultsOf(held, id)), ideal);
        pos' := pos;
      }
    }

    // traverse: one walk through the linger list.
    method Traverse(a: nat, held: seq<Firing>, first: nat, ghost t: State, ghost d0: LingerDrain.Drain, ghost n0: nat, ghost last: nat)
      returns (ideal: nat, ghost n: nat)
      requires Draining(t, a, held, Visits(d0, n0), first) && ListsFit(a, Visits(d0, n0)) && Visits(d0, n0).pos == 0 && linger[a] != []
      requires Begun(d0) && |d0.linger| <= |d0.fire| && Visits(d0, last).linger == []
      modifies this`fifos, this`fire, this`linger
      ensures Draining(t, a, held, Visits(d0, n), ideal) && ListsFit(a, Visits(d0, n))
      ensures n0 < n && Visits(d0, n).pos >= |linger[a]|
    {
      hide Visit, Visits, Draining;
      n, ideal := n0, first;
      var pos := 0;
      while pos < |linger[a]|
        invariant Draining(t, a, held, Visits(d0, n), ideal) && ListsFit(a, Visits(d0, n)) && Visits(d0, n).pos == pos
        invariant n0 <= n && (n == n0 ==> pos == 0 && linger[a] != [])
        decreases last - n
      {
        StillDraining(d0, n, last);
        NextVisit(d0, n);
        ideal, pos := CheckIfDone(a, held, pos, ideal, t, Visits(d0, n));
        n := n + 1;
      }
    }

    // The next walk begins at the head.
    lemma WalkAgain(t: State, a: nat, held: seq<Firing>, d0: LingerDrain.Drain, n: nat, ideal: nat)
      requires Draining(t, a, held, Visits(d0, n), ideal) && ListsFit(a, Visits(d0, n))
      requires Visits(d0, n).pos >= |linger[a]| > 0 && Visits(d0, n).fire != []
      ensures Draining(t, a, held, Visits(d0, n + 1), ideal) && ListsFit(a, Visits(d0, n + 1)) && Visits(d0, n + 1).pos == 0
    {
      hide Shaped, WellFormed, PassAll;
    }

    // Walk after walk until the list is empty.
    method DrainLingers(a: nat, held: seq<Firing>, first: nat, ghost t: State, ghost d0: LingerDrain.Drain, ghost last: nat)
      returns (ideal: nat)
      requires Draining(t, a, held, d0, first) && ListsFit(a, d0)
      requires Begun(d0) && |d0.linger| <= |d0.fire| && Visits(d0, last).linger == []
      modifies this`fifos, this`fire, this`linger
      ensures Draining(t, a, held, Visits(d0, last), ideal)
    {
      hide Visit, Visits, Draining, Shaped, WellFormed, PassAll, Entries, Lingers;
      ghost var n: nat := 0;
      ideal := first;
      NoVisit(d0);
      while linger[a] != []
        invariant Draining(t, a, held, Visits(d0, n), ideal) && ListsFit(a, Visits(d0, n))
        invariant if n == 0 then Visits(d0, n).pos == 0 else Visits(d0, n).pos >= |linger[a]|
        decreases last - n
      {
        StillDraining(d0, n, last);
        ghost var k := n;
        if n > 0 {
          WalkAgain(t, a, held, d0, n, ideal);
          k := n + 1;
        }
        ideal, n := Traverse(a, held, ideal, t, d0, k, last);
      }
      Drained(d0, n, last);
    }

    // The handler returns only if the drain ends.
    method ResultDeliver(b: nat, ghost P: int) returns (disorder: bool)
      requires Inv(g, Now(), P)
      requires b < |blocks| && BlockOk(Now(), b) && blocks[b].inflight && StageOf(Now(), b).Returning?
      requires fire[blocks[b].actor] != []
      requires fire[blocks[b].actor][0].block == b ==> Ends(DrainOf(Now(), blocks[b].actor))
      modifies this
      ensures disorder == (old(fire[blocks[b].actor][0].block) != b)
      ensures Now() == if disorder then Arrive(old(Now()), b) else Delivered(g, old(Now()), P, b)
    {
      var ideal := fire[blocks[b].actor][0].block;
      ghost var s := Now();
      LingerInsert(b);
      disorder := b != ideal;
      if !disorder { PassOn(b, s, P); }
    }

    // The oldest result goes out, then the drain.
    method PassOn(b: nat, ghost s: State, ghost P: int)
      requires Delivering(g, s, P, b) && Ends(DrainOf(s, s.blocks[b].actor)) && Now() == Arrive(s, b)
      modifies this`fifos, this`fire, this`linger
      ensures Now() == Delivered(g, s, P, b)
    {
      ghost var last := DrainBegins(g, s, P, b);
      PassOldest(blocks[b].actor, b, DrainOf(s, s.blocks[b].actor), last);
    }

    method PassOldest(a: nat, b: nat, ghost d: LingerDrain.Drain, ghost last: nat)
      requires WellFormed(g) && Shaped(g, Now()) && a < |g.actors| && fire[a] != [] && linger[a] != []
      requires BeginsAt(d, fire[a], linger[a], b) && Visits(d, last).linger == []
      requires |Visits(d, last).released| < |fire[a]| && |Visits(d, last).released| < |linger[a]|
      modifies this`fifos, this`fire, this`linger
      ensures
        var s, held := old(Now()), old(fire[a]);
        Now() == PassAll(g, WrittenHandler.PassResult(g, s, a, ResultsOf(held, held[0].id)), a, held, Visits(d, last).released)
    {
      hide Visits, Visit, WellFormed;
      var held := fire[a];
      FromTailTwice(ResultsOf(held, held[0].id));
      var ideal := PassResult(a, FromTail(ResultsOf(held, held[0].id)), b);
      assert PassAll(g, Now(), a, held, []) == Now();
      hide Shaped;
      ideal := DrainLingers(a, held, ideal, Now(), d, last);
    }

    method TransferDoneHandler(b: nat, ghost P: int)
      requires Inv(g, Now(), P) && Enabled(Now(), TransferDone(b)) && Returns(Now(), TransferDone(b))
      modifies this
      ensures Now() == WrittenNext(g, old(Now()), P, TransferDone(b))
      ensures KeepsOrder(old(Now()), TransferDone(b)) ==> Inv(g, Now(), P) && Now() == Next(g, old(Now()), P, TransferDone(b))
    {
      ghost var s, ev := Now(), TransferDone(b);
      if KeepsOrder(s, ev) {
        OrderedIsIntended(g, s, P, ev);
        NextKeepsInv(g, s, P, ev);
      }
      assert BlockOk(s, b);
      ResultFlag(g, s, b);
      if !blocks[b].result {
        var a := blocks[b].actor;
        var k := FiringOf(fire[a], b);
        var deps := fire[a][k].stage.deps;
        var args := Values(cells, deps);
        RecycleGarbage(deps);
        fire := fire[a := fire[a][k := fire[a][k].(stage := Running(args))]];
      } else {
        OldestArrives(g, s, P, b);
        var disorder := ResultDeliver(b, P);
        if !disorder {
          DeliveredFlow(g, s, P, b);
          ReadySearch(P);
        }
      }
    }

    // ---------------------------------------------------------------- launch

    method PacketInput(value: int)
      requires |fifos| > 0 && InRange(fifos[0])
      modifies this`fifos, this`cells
      ensures Now() == SchedulerRuns.PacketInput(old(Now()), value)
    {
      if Full(fifos[0]) { return; }
      fifos := fifos[0 := Put(fifos[0], Real(|cells|))];
      cells := cells + [Cell(value, 1, false, Packet(|cells|))];
    }

    // The packets go in and the first ready actors are found.
    method Launch(packets: seq<int>, ghost edges: seq<Fifo<Token>>, ghost nblocks: nat)
      requires WellFormed(g) && FreshFifos(g, edges) && Now() == Created(g, edges, nblocks)
      modifies this
      ensures Now() == Start(g, edges, nblocks, packets) && Inv(g, Now(), Accepted(packets))
    {
      ghost var was := Now();
      for i := 0 to |packets|
        invariant |fifos| == |g.src| && InRange(fifos[0])
        invariant Inject(Now(), packets[i..]) == Inject(was, packets)
      {
        assert packets[i..][0] == packets[i] && packets[i..][1..] == packets[i + 1..];
        PacketInput(packets[i]);
      }
      assert packets[|packets|..] == [];
      InjectedFlow(g, edges, nblocks, packets);
      StartInv(g, edges, nblocks, packets);
      ReadySearch(Accepted(packets));
    }
  }
}
