// Where the results of one firing end: over any run of any graph, the edges of
// row i get a real token for result i if the task returned it, else a pseudo token.
module ResultRows {
  import opened TokenFifo
  import opened Dataflow
  import opened TokenFlow
  import opened SchedulerSteps
  import opened SchedulerInvariants
  import opened SchedulerRuns
  import opened Determinacy
  import opened SchedulerEffects
  import opened LingerDrain
  import opened WrittenHandler

  // ------------------------------------------------------------ one delivery

  // Tokens once put stay in their cells, which are written in order.
  ghost predicate TokensStay(f: Fifo<Token>, f': Fifo<Token>) {
    && 0 <= f.wptr <= f'.wptr <= |f'.cells| && |f.cells| == |f'.cells|
    && forall x :: 0 <= x < f.wptr ==> f'.cells[x] == f.cells[x]
  }

  lemma {:induction false} SweepActorTokens(g: Graph, s: State, P: int, a: nat, e: nat)
    requires Flow(g, s, P) && a < |g.actors| && e < |s.fifos|
    ensures |SweepActor(g, s, P, a).fifos| == |s.fifos| && TokensStay(s.fifos[e], SweepActor(g, s, P, a).fifos[e])
    decreases P - Consumed(g, s, a)
  {
    FlowBounds(g, s, P, a);
    assert EdgeFlow(g, s, P, e) && InRange(s.fifos[e]);
    if FireCheck(g, s, a) {
      ConsumeKeepsFlow(g, s, P, a);
      ConsumeActor(g, s, P, a, a);
      ConsumeEdge(g, s, P, a, e);
      hide Flow, ActorReady, FireCheck, Consume;
      SweepActorTokens(g, Consume(g, s, a), P, a, e);
    }
  }

  lemma {:induction false} SweepTokens(g: Graph, s: State, P: int, a: nat, e: nat)
    requires Flow(g, s, P) && a <= |g.actors| && e < |s.fifos|
    ensures |SweepFrom(g, s, P, a).fifos| == |s.fifos| && TokensStay(s.fifos[e], SweepFrom(g, s, P, a).fifos[e])
    decreases |g.actors| - a
  {
    if a < |g.actors| {
      SweepActorTokens(g, s, P, a, e);
      hide Flow, SweepActor;
      SweepTokens(g, SweepActor(g, s, P, a), P, a + 1, e);
    } else {
      assert EdgeFlow(g, s, P, e) && InRange(s.fifos[e]);
    }
  }

  // The token for the results of one firing on one edge.
  function RowToken(g: Graph, a: nat, f: Firing, e: nat): Token
    requires a < |g.actors| && f.stage.Lingering?
  {
    TokenFor(f.stage.results, RowOf(g.actors[a].outs, e))
  }

  // The n oldest firings of actor a have been passed on, in order.
  ghost predicate PassedOn(g: Graph, s: State, t: State, a: nat, n: nat, e: nat) {
    && a < |g.actors| && a < |s.fire| == |t.fire| && n <= |s.fire[a]| && t.fire[a] == s.fire[a][n..]
    && e < |s.fifos| == |t.fifos| && TokensStay(s.fifos[e], t.fifos[e])
    && (forall j :: 0 <= j < n ==> s.fire[a][j].stage.Lingering?)
    && s.fifos[e].wptr + n <= t.fifos[e].wptr
    && (forall j :: 0 <= j < n ==> t.fifos[e].cells[s.fifos[e].wptr + j] == RowToken(g, a, s.fire[a][j], e))
  }

  lemma {:induction false} ReleaseAllTokens(g: Graph, s: State, P: int, a: nat, e: nat) returns (n: nat)
    requires Flow(g, s, P) && a < |g.actors| && e < |s.fifos| && g.src[e] == a
    ensures PassedOn(g, s, ReleaseAll(g, s, a), a, n, e)
    decreases |s.fire[a]|
  {
    assert EdgeFlow(g, s, P, e) && InRange(s.fifos[e]);
    n := 0;
    if MayRelease(s, a) {
      var u := Release(g, s, a);
      ReleaseFlow(g, s, P, a);
      ReleaseEdge(g, s, P, a, e);
      assert u.fire[a] == s.fire[a][1..] && |u.fire| == |s.fire| && |u.fifos| == |s.fifos|;
      hide Flow, Release;
      n := ReleaseAllTokens(g, u, P, a, e);
      OneMorePassed(g, s, u, ReleaseAll(g, u, a), a, n, e);
      n := n + 1;
    }
  }

  lemma OneMorePassed(g: Graph, s: State, u: State, t: State, a: nat, n: nat, e: nat)
    requires a < |g.actors| && a < |s.fire| == |u.fire| && MayRelease(s, a) && u.fire[a] == s.fire[a][1..]
    requires e < |s.fifos| == |u.fifos| && 0 <= s.fifos[e].wptr < |s.fifos[e].cells|
    requires u.fifos[e] == Fifo(s.fifos[e].cells[s.fifos[e].wptr := RowToken(g, a, s.fire[a][0], e)], s.fifos[e].wptr + 1, s.fifos[e].rptr)
    requires PassedOn(g, u, t, a, n, e)
    ensures PassedOn(g, s, t, a, n + 1, e)
  {
    hide RowToken;
    forall j | 0 <= j < n + 1
      ensures s.fire[a][j].stage.Lingering? && t.fifos[e].cells[s.fifos[e].wptr + j] == RowToken(g, a, s.fire[a][j], e)
    {
      if j > 0 {
        assert u.fire[a][j - 1] == s.fire[a][j];
        assert t.fifos[e].cells[u.fifos[e].wptr + (j - 1)] == RowToken(g, a, u.fire[a][j - 1], e);
      }
    }
  }

  // The sweep that follows leaves it at that.
  lemma PassedAndSwept(g: Graph, s: State, u: State, t: State, a: nat, n: nat, e: nat)
    requires PassedOn(g, s, u, a, n, e) && t.fire == u.fire && |t.fifos| == |u.fifos| && TokensStay(u.fifos[e], t.fifos[e])
    ensures PassedOn(g, s, t, a, n, e)
  {
    hide RowToken;
  }

  // A delivery in order, drain and sweep included.
  lemma DeliveryPasses(g: Graph, s: State, P: int, b: nat, e: nat) returns (n: nat)
    requires Inv(g, s, P) && b < |s.blocks| && BlockOk(s, b) && s.blocks[b].inflight && StageOf(s, b).Returning?
    requires s.fire[s.blocks[b].actor][0].block == b && e < |s.fifos| && g.src[e] == s.blocks[b].actor
    ensures |s.linger| == |s.fire| && PassedOn(g, Arrive(s, b), ResultDone(g, s, P, b), s.blocks[b].actor, n, e)
  {
    DeliverKeeps(g, s, P, b);
    assert WellFormed(g) && Shaped(g, Arrive(s, b));
    hide Inv, Flow, BlocksOk, Arrive, ReleaseAll, SweepFrom, PassedOn, DrainsOnly, WellFormed, Shaped;
    n := DrainAndSweep(g, Arrive(s, b), P, s.blocks[b].actor, e);
  }

  lemma DrainAndSweep(g: Graph, s: State, P: int, a: nat, e: nat) returns (n: nat)
    requires WellFormed(g) && Shaped(g, s) && a < |g.actors|
    requires Flow(g, s, P) && Flow(g, ReleaseAll(g, s, a), P) && e < |s.fifos| && g.src[e] == a
    ensures PassedOn(g, s, Sweep(g, ReleaseAll(g, s, a), P), a, n, e)
  {
    hide Flow, ReleaseAll, SweepFrom;
    var u := ReleaseAll(g, s, a);
    n := ReleaseAllTokens(g, s, P, a, e);
    SweepKeepsRest(g, u, P, 0);
    SweepTokens(g, u, P, 0, e);
    PassedAndSwept(g, s, u, Sweep(g, u, P), a, n, e);
  }

  // ------------------------------------------------------------- one firing

  ghost predicate InList(s: State, a: nat, id: nat) {
    a < |s.fire| && exists j :: 0 <= j < |s.fire[a]| && s.fire[a][j].id == id
  }

  // Firing id of actor a, at position j of its list, has returned these results.
  predicate HasResults(s: State, a: nat, j: nat, id: nat, results: seq<nat>) {
    && a < |s.fire| && j < |s.fire[a]| && s.fire[a][j].id == id
    && (s.fire[a][j].stage == Returning(results) || s.fire[a][j].stage == Lingering(results))
  }

  // Block b delivers the oldest firing's result of actor a.
  ghost predicate DeliversFor(s: State, ev: Event, a: nat) {
    && ev.TransferDone? && ev.block < |s.blocks| && BlockOk(s, ev.block) && s.blocks[ev.block].inflight
    && StageOf(s, ev.block).Returning? && s.blocks[ev.block].actor == a && s.fire[a][0].block == ev.block
  }

  lemma ArrivedResults(g: Graph, s: State, P: int, b: nat, a: nat, j: nat, id: nat, results: seq<nat>)
    requires Inv(g, s, P) && b < |s.blocks| && BlockOk(s, b) && s.blocks[b].inflight && StageOf(s, b).Returning?
    requires HasResults(s, a, j, id, results)
    ensures |s.linger| == |s.fire| && HasResults(Arrive(s, b), a, j, id, results)
  {
  }

  // Any other event leaves it where it is.
  lemma OthersLeave(g: Graph, s: State, P: int, ev: Event, a: nat, j: nat, id: nat, results: seq<nat>)
    requires Inv(g, s, P) && Enabled(s, ev) && HasResults(s, a, j, id, results) && !DeliversFor(s, ev, a)
    ensures HasResults(Next(g, s, P, ev), a, j, id, results)
  {
    match ev
    case Interrupt(b, ret) =>
      assert BlockOk(s, b);
    case Check =>
      assert s.idle[0] in s.idle;
    case TransferDone(b) =>
      assert BlockOk(s, b);
      ResultFlag(g, s, b);
      if s.blocks[b].result {
        ArrivedResults(g, s, P, b, a, j, id, results);
        ResultDoneLeaves(g, s, P, b, a, j);
      }
  }

  lemma ResultDoneLeaves(g: Graph, s: State, P: int, b: nat, a: nat, j: nat)
    requires Inv(g, s, P) && b < |s.blocks| && BlockOk(s, b) && s.blocks[b].inflight && StageOf(s, b).Returning?
    requires a < |s.fire| && j < |s.fire[a]| && !(s.blocks[b].actor == a && s.fire[a][0].block == b)
    ensures |s.linger| == |s.fire| && |ResultDone(g, s, P, b).fire| == |s.fire| && ResultDone(g, s, P, b).fire[a] == Arrive(s, b).fire[a]
  {
    DeliverKeeps(g, s, P, b);
    SweepKeepsRest(g, ReleaseAll(g, Arrive(s, b), s.blocks[b].actor), P, 0);
  }

  lemma ListHas(s: State, a: nat, j: nat, id: nat, results: seq<nat>)
    requires HasResults(s, a, j, id, results)
    ensures InList(s, a, id)
  {
  }

  // A firing that a delivery does not reach moves up.
  lemma MovesUp(g: Graph, s: State, t: State, a: nat, n: nat, e: nat, j: nat, id: nat, results: seq<nat>)
    requires PassedOn(g, s, t, a, n, e) && HasResults(s, a, j, id, results) && n <= j
    ensures HasResults(t, a, j - n, id, results) && InList(t, a, id)
  {
    assert t.fire[a][j - n] == s.fire[a][j];
  }

  // When it has left the list, every edge of the actor has the token for its row, j
  // places behind what was there before.
  ghost predicate Passed(g: Graph, s: State, t: State, a: nat, j: nat, results: seq<nat>, e: nat) {
    && a < |g.actors| && e < |s.fifos| == |t.fifos| && 0 <= s.fifos[e].wptr && s.fifos[e].wptr + j < t.fifos[e].wptr <= |t.fifos[e].cells|
    && t.fifos[e].cells[s.fifos[e].wptr + j] == TokenFor(results, RowOf(g.actors[a].outs, e))
  }

  lemma ReachedIsPassed(g: Graph, s: State, t: State, a: nat, n: nat, e: nat, j: nat, id: nat, results: seq<nat>)
    requires PassedOn(g, s, t, a, n, e) && HasResults(s, a, j, id, results) && j < n && 0 <= s.fifos[e].wptr
    ensures Passed(g, s, t, a, j, results, e)
  {
    assert s.fire[a][j].stage.Lingering?;
  }

  lemma DeliveryOf(g: Graph, s: State, P: int, ev: Event, a: nat)
    requires Inv(g, s, P) && Enabled(s, ev) && DeliversFor(s, ev, a)
    ensures Next(g, s, P, ev) == ResultDone(g, s, P, ev.block)
  {
    ResultFlag(g, s, ev.block);
  }

  lemma LeavesPassed(g: Graph, s: State, P: int, ev: Event, a: nat, j: nat, id: nat, results: seq<nat>, e: nat)
    requires Inv(g, s, P) && Enabled(s, ev) && HasResults(s, a, j, id, results)
    requires !InList(Next(g, s, P, ev), a, id) && e < |s.fifos| && g.src[e] == a
    ensures Passed(g, s, Next(g, s, P, ev), a, j, results, e)
  {
    var t := Next(g, s, P, ev);
    if DeliversFor(s, ev, a) {
      DeliveryOf(g, s, P, ev, a);
      DeliveredPassed(g, s, P, ev.block, j, id, results, e);
    } else {
      OthersLeave(g, s, P, ev, a, j, id, results);
      ListHas(t, a, j, id, results);
      assert false;
    }
  }

  lemma DeliveredPassed(g: Graph, s: State, P: int, b: nat, j: nat, id: nat, results: seq<nat>, e: nat)
    requires Inv(g, s, P) && b < |s.blocks| && BlockOk(s, b) && s.blocks[b].inflight && StageOf(s, b).Returning?
    requires s.fire[s.blocks[b].actor][0].block == b && e < |s.fifos| && g.src[e] == s.blocks[b].actor
    requires HasResults(s, s.blocks[b].actor, j, id, results) && !InList(ResultDone(g, s, P, b), s.blocks[b].actor, id)
    ensures Passed(g, s, ResultDone(g, s, P, b), s.blocks[b].actor, j, results, e)
  {
    var a, t, s' := s.blocks[b].actor, ResultDone(g, s, P, b), Arrive(s, b);
    assert EdgeFlow(g, s, P, e);
    ArrivedResults(g, s, P, b, a, j, id, results);
    var n := DeliveryPasses(g, s, P, b, e);
    hide Inv, ResultDone, Sized, PassedOn;
    if n <= j { MovesUp(g, s', t, a, n, e, j, id, results); }
    ReachedIsPassed(g, s', t, a, n, e, j, id, results);
  }

  lemma StaysOrLeaves(g: Graph, s: State, P: int, ev: Event, a: nat, j: nat, id: nat, results: seq<nat>) returns (j': nat)
    requires Inv(g, s, P) && Enabled(s, ev) && HasResults(s, a, j, id, results)
    requires InList(Next(g, s, P, ev), a, id)
    ensures HasResults(Next(g, s, P, ev), a, j', id, results)
  {
    if DeliversFor(s, ev, a) {
      DeliveryOf(g, s, P, ev, a);
      j' := StillWaiting(g, s, P, ev.block, a, j, id, results);
    } else {
      OthersLeave(g, s, P, ev, a, j, id, results);
      j' := j;
    }
  }

  // Some edge of the actor, which a drain writes.
  lemma AnEdge(g: Graph, a: nat) returns (e: nat)
    requires WellFormed(g) && a < |g.actors|
    ensures e < |g.src| && g.src[e] == a
  {
    assert WellFormedActor(g, a) && MadeBy(g, g.actors[a].outs[0], a);
    e := g.actors[a].outs[0][0];
    assert e in g.actors[a].outs[0];
  }

  // A firing that is still in the list after a delivery was not reached: ids are
  // distinct.
  lemma StillWaiting(g: Graph, s: State, P: int, b: nat, a: nat, j: nat, id: nat, results: seq<nat>) returns (j': nat)
    requires Inv(g, s, P) && b < |s.blocks| && BlockOk(s, b) && s.blocks[b].inflight && StageOf(s, b).Returning?
    requires s.blocks[b].actor == a && s.fire[a][0].block == b && HasResults(s, a, j, id, results)
    requires InList(ResultDone(g, s, P, b), a, id)
    ensures HasResults(ResultDone(g, s, P, b), a, j', id, results)
  {
    var t, s' := ResultDone(g, s, P, b), Arrive(s, b);
    ArrivedResults(g, s, P, b, a, j, id, results);
    ArriveFlow(g, s, P, b);
    assert ActorBlocks(s', a) && FireListOk(s'.fire[a]);
    var e := AnEdge(g, a);
    var n := DeliveryPasses(g, s, P, b, e);
    hide Inv, ResultDone, Arrive, Flow, BlocksOk, FireListOk;
    j' := SameFiring(g, s', t, a, n, e, j, id, results);
  }

  lemma SameFiring(g: Graph, s: State, t: State, a: nat, n: nat, e: nat, j: nat, id: nat, results: seq<nat>) returns (i: nat)
    requires PassedOn(g, s, t, a, n, e) && HasResults(s, a, j, id, results) && FireListOk(s.fire[a]) && InList(t, a, id)
    ensures HasResults(t, a, i, id, results)
  {
    var x :| 0 <= x < |t.fire[a]| && t.fire[a][x].id == id;
    assert t.fire[a][x] == s.fire[a][n + x];
    i := x;
  }

  // ----------------------------------------------------------------- in runs

  lemma NextGrows(g: Graph, s: State, P: int, ev: Event)
    requires Inv(g, s, P) && Enabled(s, ev)
    ensures Grown(s.cells, Next(g, s, P, ev).cells)
  {
    match ev
    case Interrupt(b, ret) =>
      assert BlockOk(s, b);
    case Check =>
      assert s.idle[0] in s.idle;
    case TransferDone(b) =>
      assert BlockOk(s, b);
      ResultFlag(g, s, b);
      if s.blocks[b].result {
        DeliverKeeps(g, s, P, b);
        SweepKeepsRest(g, ReleaseAll(g, Arrive(s, b), s.blocks[b].actor), P, 0);
      } else {
        RecycleGrows(s.cells, StageOf(s, b).deps);
      }
  }

  // The firing waits with n results, which are results 0 to n - 1 of its task.
  ghost predicate Waits(s: State, a: nat, id: nat, n: nat, j: nat, results: seq<nat>) {
    && HasResults(s, a, j, id, results) && |results| == n
    && forall i :: 0 <= i < n ==> Made(s.cells, results[i], Result(a, i, id))
  }

  lemma WaitsOn(g: Graph, s: State, P: int, ev: Event, a: nat, id: nat, n: nat, j: nat, results: seq<nat>) returns (j': nat)
    requires Inv(g, s, P) && Enabled(s, ev) && Waits(s, a, id, n, j, results) && InList(Next(g, s, P, ev), a, id)
    ensures Waits(Next(g, s, P, ev), a, id, n, j', results)
  {
    j' := StaysOrLeaves(g, s, P, ev, a, j, id, results);
    NextGrows(g, s, P, ev);
  }

  // What the interrupt of a block at work starts: ret results, or one for each row
  // if there are fewer rows.
  lemma ReturnsWait(g: Graph, s: State, P: int, b: nat, ret: nat) returns (j: nat, results: seq<nat>)
    requires Inv(g, s, P) && b < |s.blocks| && s.blocks[b].inflight && Enabled(s, Interrupt(b, ret))
    ensures
      var a := s.blocks[b].actor;
      && 0 <= a < |g.actors| == |s.fire| && j < |s.fire[a]| && s.fire[a][j].block == b && s.fire[a][j].stage.Running?
      && var rows := |g.actors[a].outs|;
      Waits(Next(g, s, P, Interrupt(b, ret)), a, s.fire[a][j].id, if ret < rows then ret else rows, j, results)
  {
    InterruptReturns(g, s, P, b, ret);
    var t := Next(g, s, P, Interrupt(b, ret));
    hide Inv, Next, Returned, Waits, Enabled;
    var a: nat, k: nat :| Returned(g, s, t, b, ret, a, k);
    results := ReturnedWaits(g, s, t, b, ret, a, k);
    j := k;
  }

  lemma ReturnedWaits(g: Graph, s: State, t: State, b: nat, ret: nat, a: nat, k: nat) returns (results: seq<nat>)
    requires Returned(g, s, t, b, ret, a, k)
    ensures a == s.blocks[b].actor && a < |g.actors| == |s.fire| && k < |s.fire[a]| && s.fire[a][k].block == b && s.fire[a][k].stage.Running?
    ensures
      var rows := |g.actors[a].outs|;
      Waits(t, a, s.fire[a][k].id, if ret < rows then ret else rows, k, results)
  {
    results := t.fire[a][k].stage.results;
  }

  lemma {:induction false} WaitsInRun(
    g: Graph, P: int, ss: seq<State>, evs: seq<Event>, k: nat, m: nat, a: nat, id: nat, n: nat, j: nat, results: seq<nat>)
    returns (j': nat)
    requires Run(g, P, ss, evs) && k <= m < |ss| && Waits(ss[k], a, id, n, j, results)
    requires forall x :: k <= x <= m ==> InList(ss[x], a, id)
    ensures Waits(ss[m], a, id, n, j', results)
    decreases m - k
  {
    j' := j;
    if k < m {
      RunStep(g, P, ss, evs, k);
      hide Run, Inv, Enabled, Next, Waits, InList;
      assert InList(ss[k + 1], a, id);
      j' := WaitsOn(g, ss[k], P, evs[k], a, id, n, j, results);
      j' := WaitsInRun(g, P, ss, evs, k + 1, m, a, id, n, j', results);
    }
  }

  // Edge e has the token of row i for this firing, where n results were returned.
  ghost predicate RowFilled(t: State, e: nat, x: int, a: nat, i: nat, id: nat, n: nat) {
    && e < |t.fifos| && 0 <= x < t.fifos[e].wptr <= |t.fifos[e].cells|
    && var token := t.fifos[e].cells[x];
    && (token.Real? <==> i < n)
    && (token.Real? ==> Made(t.cells, token.data, Result(a, i, id)))
  }

  // Block b is at work on firing id of actor a.
  ghost predicate WorksOn(s: State, b: nat, a: nat, id: nat) {
    && b < |s.blocks| && s.blocks[b].inflight && s.blocks[b].actor == a
    && a < |s.fire| && exists j :: 0 <= j < |s.fire[a]| && s.fire[a][j].id == id && Matches(s.fire[a][j], b)
  }

  // Event m is the one with which that firing leaves the fire list.
  ghost predicate LeavesAt(ss: seq<State>, k: nat, m: nat, a: nat, id: nat) {
    m + 1 < |ss| && (forall x :: k < x <= m ==> InList(ss[x], a, id)) && !InList(ss[m + 1], a, id)
  }

  // Event k is the interrupt of a block that has run firing id of actor a and
  // returns ret results; with event m the firing leaves the fire list, where its
  // position is j.  Then event m has put on every edge of row i, j places behind
  // what was there, the firing's result i if i < ret, else a pseudo token.
  lemma RunFillsRows(
    g: Graph, P: int, ss: seq<State>, evs: seq<Event>, k: nat, m: nat, b: nat, ret: nat, a: nat, id: nat)
    returns (j: nat)
    requires Run(g, P, ss, evs) && k < m < |evs| && evs[k] == Interrupt(b, ret)
    requires WorksOn(ss[k], b, a, id) && LeavesAt(ss, k, m, a, id)
    ensures a < |g.actors| && a < |ss[m].fire| && j < |ss[m].fire[a]| && ss[m].fire[a][j].id == id && |ss[m].fifos| == |g.src|
    ensures forall i, e :: 0 <= i < |g.actors[a].outs| && e in g.actors[a].outs[i] && e < |g.src| ==>
      RowFilled(ss[m + 1], e, ss[m].fifos[e].wptr + j, a, i, id, ret)
  {
    hide *;
    RunStep(g, P, ss, evs, k);
    RunStep(g, P, ss, evs, m);
    LeavesStays(ss, k, m, a, id);
    var k0, results := WorkReturns(g, ss[k], P, b, ret, a, id);
    var rows := |g.actors[a].outs|;
    j := WaitsInRun(g, P, ss, evs, k + 1, m, a, id, if ret < rows then ret else rows, k0, results);
    RowsFilled(g, ss[m], P, evs[m], a, id, ret, j, results);
  }

  lemma LeavesStays(ss: seq<State>, k: nat, m: nat, a: nat, id: nat)
    requires LeavesAt(ss, k, m, a, id) && k < m
    ensures m + 1 < |ss| && !InList(ss[m + 1], a, id) && forall x :: k + 1 <= x <= m ==> InList(ss[x], a, id)
  {
  }

  lemma RunStep(g: Graph, P: int, ss: seq<State>, evs: seq<Event>, k: nat)
    requires Run(g, P, ss, evs) && k < |evs|
    ensures k + 1 < |ss| && Inv(g, ss[k], P) && Enabled(ss[k], evs[k]) && ss[k + 1] == Next(g, ss[k], P, evs[k])
  {
  }

  lemma WorkReturns(g: Graph, s: State, P: int, b: nat, ret: nat, a: nat, id: nat) returns (j: nat, results: seq<nat>)
    requires Inv(g, s, P) && WorksOn(s, b, a, id) && Enabled(s, Interrupt(b, ret))
    ensures a < |g.actors|
    ensures
      var rows := |g.actors[a].outs|;
      Waits(Next(g, s, P, Interrupt(b, ret)), a, id, if ret < rows then ret else rows, j, results)
  {
    j, results := ReturnsWait(g, s, P, b, ret);
    var pos :| 0 <= pos < |s.fire[a]| && s.fire[a][pos].id == id && Matches(s.fire[a][pos], b);
    hide Next, Waits;
    SameFiringOf(g, s, P, a, b, pos, j);
  }

  lemma SameFiringOf(g: Graph, s: State, P: int, a: nat, b: nat, pos: nat, k: nat)
    requires Inv(g, s, P) && a < |s.fire| && pos < |s.fire[a]| && k < |s.fire[a]|
    requires Matches(s.fire[a][pos], b) && Matches(s.fire[a][k], b)
    ensures pos == k
  {
    assert ActorBlocks(s, a);
  }

  lemma RowsFilled(g: Graph, s: State, P: int, ev: Event, a: nat, id: nat, ret: nat, j: nat, results: seq<nat>)
    requires Inv(g, s, P) && Enabled(s, ev) && a < |g.actors| && !InList(Next(g, s, P, ev), a, id)
    requires Waits(s, a, id, if ret < |g.actors[a].outs| then ret else |g.actors[a].outs|, j, results)
    ensures a < |s.fire| && j < |s.fire[a]| && s.fire[a][j].id == id && |s.fifos| == |g.src|
    ensures forall i, e :: 0 <= i < |g.actors[a].outs| && e in g.actors[a].outs[i] && e < |g.src| ==>
      RowFilled(Next(g, s, P, ev), e, s.fifos[e].wptr + j, a, i, id, ret)
  {
    var t, rows := Next(g, s, P, ev), g.actors[a].outs;
    NextGrows(g, s, P, ev);
    assert WellFormedActor(g, a) && WellFormed(g) && |s.fifos| == |g.src|;
    hide Inv, Enabled, Next, InList;
    forall i, e | 0 <= i < |rows| && e in rows[i] && e < |g.src|
      ensures RowFilled(t, e, s.fifos[e].wptr + j, a, i, id, ret)
    {
      assert MadeBy(g, rows[i], a);
      LeavesPassed(g, s, P, ev, a, j, id, results, e);
      assert RowOf(rows, e) == i;
    }
  }

  // ------------------------------------------------- the program as written

  // One result passed on by the handler as written.
  lemma PassResultEdge(g: Graph, s: State, P: int, a: nat, results: seq<nat>, e: nat)
    requires Flow(g, s, P) && a < |g.actors| && s.fire[a] != [] && s.linger[a] != [] && e < |s.fifos| && g.src[e] == a
    ensures
      var f := s.fifos[e];
      && 0 <= f.wptr < |f.cells|
      && PassResult(g, s, a, results).fifos[e] == Fifo(f.cells[f.wptr := TokenFor(results, RowOf(g.actors[a].outs, e))], f.wptr + 1, f.rptr)
  {
    var u := s.(fire := s.fire[a := s.fire[a][0 := s.fire[a][0].(stage := Lingering(results))]]);
    SameFlow(g, s, u, P);
    assert EdgeFlow(g, s, P, e) && InRange(s.fifos[e]);
    ReleaseEdge(g, u, P, a, e);
    assert PassResult(g, s, a, results).fifos == Release(g, u, a).fifos;
  }

  // Place j behind what was on the edge holds the row's token of the j-th entry.
  ghost predicate PlacedInOrder(g: Graph, f: Fifo<Token>, f': Fifo<Token>, a: nat, held: seq<Firing>, es: seq<Entry>, e: nat) {
    && a < |g.actors| && TokensStay(f, f') && f.wptr + |es| <= f'.wptr
    && forall j :: 0 <= j < |es| ==> f'.cells[f.wptr + j] == TokenFor(ResultsOf(held, es[j].id), RowOf(g.actors[a].outs, e))
  }

  lemma FlowShape(g: Graph, s: State, P: int, e: nat)
    requires Flow(g, s, P) && e < |s.fifos|
    ensures WellFormed(g) && Shaped(g, s) && |s.fire| == |s.linger| == |g.actors| && |s.fifos| == |g.src|
    ensures 0 <= s.fifos[e].wptr < |s.fifos[e].cells|
  {
    assert EdgeFlow(g, s, P, e) && InRange(s.fifos[e]);
  }

  lemma {:induction false} PassAllTokens(g: Graph, s: State, P: int, a: nat, held: seq<Firing>, es: seq<Entry>, e: nat)
    requires Flow(g, s, P) && a < |g.actors| && |es| <= |s.fire[a]| && |es| <= |s.linger[a]| && e < |s.fifos| && g.src[e] == a
    ensures
      var f, f' := s.fifos[e], PassAll(g, s, a, held, es).fifos[e];
      f'.wptr == f.wptr + |es| && PlacedInOrder(g, f, f', a, held, es, e)
    decreases |es|
  {
    FlowShape(g, s, P, e);
    hide Flow, WellFormed, Shaped;
    if es != [] {
      var n := |es| - 1;
      var u := PassAll(g, s, a, held, es[..n]);
      PassAllFlow(g, s, P, a, held, es[..n]);
      hide PassAll, PassResult, ResultsOf, TokenFor, RowOf, PlacedInOrder;
      PassAllTokens(g, s, P, a, held, es[..n], e);
      PassLast(g, s, a, held, es);
      PassResultEdge(g, u, P, a, ResultsOf(held, es[n].id), e);
      PlacedOneMore(g, s.fifos[e], u.fifos[e], a, held, es, e);
    }
  }

  lemma PlacedOneMore(g: Graph, f: Fifo<Token>, f': Fifo<Token>, a: nat, held: seq<Firing>, es: seq<Entry>, e: nat)
    requires es != [] && PlacedInOrder(g, f, f', a, held, es[..|es| - 1], e) && f'.wptr == f.wptr + |es| - 1 < |f'.cells|
    ensures
      var t := TokenFor(ResultsOf(held, es[|es| - 1].id), RowOf(g.actors[a].outs, e));
      PlacedInOrder(g, f, Fifo(f'.cells[f'.wptr := t], f'.wptr + 1, f'.rptr), a, held, es, e)
  {
    hide ResultsOf, TokenFor, RowOf;
  }

  lemma PassLast(g: Graph, s: State, a: nat, held: seq<Firing>, es: seq<Entry>)
    requires WellFormed(g) && Shaped(g, s) && a < |g.actors| && 0 < |es| <= |s.fire[a]| && |es| <= |s.linger[a]|
    ensures
      var u := PassAll(g, s, a, held, es[..|es| - 1]);
      u.fire[a] != [] && u.linger[a] != []
      && PassAll(g, s, a, held, es) == PassResult(g, u, a, ResultsOf(held, es[|es| - 1].id))
  {
  }

  // What a delivery passes on, oldest firing first, then the lingers as found.
  ghost function DeliveryOrder(s: State, b: nat): seq<Entry>
    requires b < |s.blocks| && 0 <= s.blocks[b].actor < |s.fire| == |s.linger| && s.fire[s.blocks[b].actor] != []
    requires Ends(DrainOf(s, s.blocks[b].actor))
  {
    var a := s.blocks[b].actor;
    [Entry(s.fire[a][0].id, b)] + Outcome(DrainOf(s, a))
  }

  // A delivery by the program as written puts on every edge of the actor, behind
  // what was there, the tokens of the firings it passes on, each firing's own, in
  // the order of the drain: in firing order or not.
  lemma WrittenDeliveryFills(g: Graph, s: State, P: int, ev: Event, e: nat)
    requires Inv(g, s, P) && Enabled(s, ev) && Returns(s, ev) && Delivers(s, ev)
    requires e < |s.fifos| && g.src[e] == s.blocks[ev.block].actor
    ensures |s.linger| == |s.fire| && Ends(DrainOf(s, s.blocks[ev.block].actor))
    ensures
      var a, t := s.blocks[ev.block].actor, WrittenNext(g, s, P, ev);
      && |t.fifos| == |s.fifos| && t.cells == s.cells
      && PlacedInOrder(g, s.fifos[e], t.fifos[e], a, s.fire[a], DeliveryOrder(s, ev.block), e)
  {
    var b, a := ev.block, s.blocks[ev.block].actor;
    DeliversResult(g, s, P, ev);
    OutcomeFits(g, s, P, b);
    ArriveFlow(g, s, P, b);
    DeliveredFlow(g, s, P, b);
    var t, u := Arrive(s, b), Delivered(g, s, P, b);
    OldestArrives(g, s, P, b);
    assert t.fifos == s.fifos && u.cells == s.cells && t.fire[a] == s.fire[a][0 := t.fire[a][0]];
    SameResults(s.fire[a], t.fire[a]);
    assert WrittenNext(g, s, P, ev) == Sweep(g, u, P);
    hide Inv, Flow, Delivering, Arrive, WrittenNext, Outcome, Ends, PlacedInOrder, PassAll, SweepFrom, BlocksOk, DrainOf, ResultsOf;
    PassAllTokens(g, t, P, a, t.fire[a], DeliveryOrder(s, b), e);
    SweepKeepsRest(g, u, P, 0);
    SweepTokens(g, u, P, 0, e);
    PlacedStays(g, s.fifos[e], u.fifos[e], Sweep(g, u, P).fifos[e], a, t.fire[a], s.fire[a], DeliveryOrder(s, b), e);
  }

  lemma SameResults(fire: seq<Firing>, now: seq<Firing>)
    requires fire != [] && |now| == |fire| && now == fire[0 := now[0]] && now[0].id == fire[0].id
    requires ResultsIn(now[0].stage) == ResultsIn(fire[0].stage)
    ensures forall id :: ResultsOf(now, id) == ResultsOf(fire, id)
  {
    forall id
      ensures Position(now, id) == Position(fire, id)
    {
      assert now[1..] == fire[1..];
    }
  }

  lemma PlacedStays(
    g: Graph, f: Fifo<Token>, f': Fifo<Token>, f'': Fifo<Token>, a: nat, held: seq<Firing>, other: seq<Firing>, es: seq<Entry>, e: nat)
    requires PlacedInOrder(g, f, f', a, held, es, e) && TokensStay(f', f'')
    requires forall id :: ResultsOf(held, id) == ResultsOf(other, id)
    ensures PlacedInOrder(g, f, f'', a, other, es, e)
  {
    hide ResultsOf, TokenFor, RowOf;
  }
}
