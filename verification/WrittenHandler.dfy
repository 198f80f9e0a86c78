// The result handler as it is written, on scheduler states, and the runs of the
// program as it is written (dma/transfer_callback.c:20-115).
module WrittenHandler {
  import opened TokenFifo
  import opened Dataflow
  import opened TokenFlow
  import opened SchedulerSteps
  import opened SchedulerInvariants
  import opened SchedulerRuns
  import opened LingerDrain

  // scheduler_pass_result: these results go to the successors, the oldest firing
  // leaves the fire list and the newest linger leaves the linger list.
  function PassResult(g: Graph, s: State, a: nat, results: seq<nat>): (t: State)
    requires WellFormed(g) && Shaped(g, s) && a < |g.actors| && s.fire[a] != [] && s.linger[a] != []
    ensures Shaped(g, t)
  {
    ActorRowsIn(g, s, a);
    s.(fifos := PutResults(s.fifos, g.actors[a].outs, results),
       fire := s.fire[a := s.fire[a][1..]], linger := s.linger[a := s.linger[a][1..]])
  }

  function ResultsIn(stage: Stage): seq<nat> {
    match stage
    case Loading(_) => []
    case Running(_) => []
    case Returning(results) => results
    case Lingering(results) => results
  }

  // The token list that a linger holds; held are the firings when it began.
  function ResultsOf(held: seq<Firing>, id: nat): seq<nat> {
    var k := Position(held, id);
    if k < |held| then ResultsIn(held[k].stage) else []
  }

  // The results of these lingers are passed on one after the other.
  function PassAll(g: Graph, s: State, a: nat, held: seq<Firing>, es: seq<Entry>): (t: State)
    requires WellFormed(g) && Shaped(g, s) && a < |g.actors| && |es| <= |s.fire[a]| && |es| <= |s.linger[a]|
    ensures Shaped(g, t) && t.fire[a] == s.fire[a][|es|..] && t.linger[a] == s.linger[a][|es|..]
    ensures t == s.(fifos := t.fifos, fire := t.fire, linger := t.linger)
    ensures t.fire == s.fire[a := t.fire[a]] && t.linger == s.linger[a := t.linger[a]]
    decreases |es|
  {
    if es == [] then s
    else
      var n := |es| - 1;
      PassResult(g, PassAll(g, s, a, held, es[..n]), a, ResultsOf(held, es[n].id))
  }

  lemma {:induction false} PassFirst(g: Graph, s: State, a: nat, held: seq<Firing>, e: Entry, es: seq<Entry>)
    requires WellFormed(g) && Shaped(g, s) && a < |g.actors| && |es| < |s.fire[a]| && |es| < |s.linger[a]|
    ensures PassAll(g, s, a, held, [e] + es) == PassAll(g, PassResult(g, s, a, ResultsOf(held, e.id)), a, held, es)
    decreases |es|
  {
    hide Shaped, WellFormed;
    if es == [] {
      assert ([e] + es)[..0] == [] && ([e] + es)[0] == e;
    } else {
      var n := |es| - 1;
      assert ([e] + es)[..n + 1] == [e] + es[..n] && ([e] + es)[n + 1] == es[n];
      PassFirst(g, s, a, held, e, es[..n]);
    }
  }

  // Whatever it passes on, in whatever order, the token counts stay right.
  lemma PassResultFlow(g: Graph, s: State, P: int, a: nat, results: seq<nat>)
    requires Flow(g, s, P) && a < |g.actors| && s.fire[a] != [] && s.linger[a] != []
    ensures Flow(g, PassResult(g, s, a, results), P)
  {
    var f := s.fire[a][0];
    var u := s.(fire := s.fire[a := s.fire[a][0 := f.(stage := Lingering(results))]]);
    SameFlow(g, s, u, P);
    ReleaseFlow(g, u, P, a);
    var t := PassResult(g, s, a, results);
    assert u.fire[a][1..] == s.fire[a][1..];
    assert t == Release(g, u, a).(linger := t.linger);
    hide Flow, Release, PassResult;
    SameFlow(g, Release(g, u, a), t, P);
  }

  lemma {:induction false} PassAllFlow(g: Graph, s: State, P: int, a: nat, held: seq<Firing>, es: seq<Entry>)
    requires Flow(g, s, P) && a < |g.actors| && |es| <= |s.fire[a]| && |es| <= |s.linger[a]|
    ensures Flow(g, PassAll(g, s, a, held, es), P)
    decreases |es|
  {
    if es != [] {
      var n := |es| - 1;
      PassAllFlow(g, s, P, a, held, es[..n]);
      PassResultFlow(g, PassAll(g, s, a, held, es[..n]), P, a, ResultsOf(held, es[n].id));
    }
  }

  // --------------------------------------------------------- result_deliver

  // The lingers in the order in which the loop passes them on.
  ghost function Outcome(d: Drain): (r: seq<Entry>)
    requires Ends(d)
    ensures EndsWith(d, r)
  {
    var n: nat :| Visits(d, n).linger == [];
    Visits(d, n).released
  }

  // Block b reports the result of its actor's oldest firing.
  predicate Delivers(s: State, ev: Event) {
    ev.TransferDone? && ev.block < |s.blocks| &&
    var k := s.blocks[ev.block];
    k.inflight && k.result && 0 <= k.actor < |s.fire| && s.fire[k.actor] != [] && s.fire[k.actor][0].block == ev.block
  }

  // The handler returns: only a delivery may fail to.
  ghost predicate Returns(s: State, ev: Event) {
    Delivers(s, ev) && |s.linger| == |s.fire| ==> Ends(DrainOf(s, s.blocks[ev.block].actor))
  }

  ghost predicate Delivering(g: Graph, s: State, P: int, b: nat) {
    && Inv(g, s, P) && b < |s.blocks| && BlockOk(s, b) && s.blocks[b].inflight && StageOf(s, b).Returning?
    && s.fire[s.blocks[b].actor][0].block == b
  }

  lemma OutcomeFits(g: Graph, s: State, P: int, b: nat)
    requires Delivering(g, s, P, b) && Ends(DrainOf(s, s.blocks[b].actor))
    ensures
      var a, t := s.blocks[b].actor, Arrive(s, b);
      && |Outcome(DrainOf(s, a))| == |s.linger[a]| < |s.fire[a]|
      && Shaped(g, t) && |t.fire[a]| == |s.fire[a]| && |t.linger[a]| == |s.linger[a]| + 1
  {
    var a := s.blocks[b].actor;
    WaitingBehindOldest(g, s, P, a);
    ArriveFlow(g, s, P, b);
    var d := DrainOf(s, a);
    var n: nat :| Visits(d, n).linger == [] && Visits(d, n).released == Outcome(d);
    VisitsKeepAfter(d, n);
  }

  // What result_deliver leaves: the oldest result is passed on, then the lingers
  // in the order of the loop.
  ghost function Delivered(g: Graph, s: State, P: int, b: nat): State
    requires Delivering(g, s, P, b) && Ends(DrainOf(s, s.blocks[b].actor))
  {
    OutcomeFits(g, s, P, b);
    var a, t := s.blocks[b].actor, Arrive(s, b);
    PassAll(g, t, a, t.fire[a], [Entry(s.fire[a][0].id, b)] + Outcome(DrainOf(s, a)))
  }

  lemma DeliveredFlow(g: Graph, s: State, P: int, b: nat)
    requires Delivering(g, s, P, b) && Ends(DrainOf(s, s.blocks[b].actor))
    ensures Flow(g, Delivered(g, s, P, b), P)
  {
    OutcomeFits(g, s, P, b);
    ArriveFlow(g, s, P, b);
    var a, t := s.blocks[b].actor, Arrive(s, b);
    PassAllFlow(g, t, P, a, t.fire[a], [Entry(s.fire[a][0].id, b)] + Outcome(DrainOf(s, a)));
  }

  // One event of the program as it is written.
  ghost function WrittenNext(g: Graph, s: State, P: int, ev: Event): State
    requires Inv(g, s, P) && Enabled(s, ev) && Returns(s, ev)
  {
    if Delivers(s, ev) then
      DeliversResult(g, s, P, ev);
      DeliveredFlow(g, s, P, ev.block);
      Sweep(g, Delivered(g, s, P, ev.block), P)
    else Next(g, s, P, ev)
  }

  lemma DeliversResult(g: Graph, s: State, P: int, ev: Event)
    requires Inv(g, s, P) && Enabled(s, ev) && Delivers(s, ev)
    ensures Delivering(g, s, P, ev.block)
  {
    assert BlockOk(s, ev.block);
    ResultFlag(g, s, ev.block);
  }

  // ----------------------------------------------- against the intended drain

  // Passing on the lingers in firing order is the intended drain.
  lemma {:induction false} ReleaseAllPasses(g: Graph, s: State, P: int, a: nat, held: seq<Firing>, es: seq<Entry>)
    requires Flow(g, s, P) && BlocksOk(g, s) && a < |g.actors|
    requires s.linger[a] == IdsOf(es) && es <= Entries(s.fire[a])
    requires forall k :: 0 <= k < |s.fire[a]| ==> ResultsOf(held, s.fire[a][k].id) == ResultsIn(s.fire[a][k].stage)
    ensures ReleaseAll(g, s, a) == PassAll(g, s, a, held, es)
    decreases |es|
  {
    assert LingerOk(s, a) && ActorBlocks(s, a);
    if es == [] {
      assert !LingersIn(s.fire[a], if s.fire[a] == [] then 0 else s.fire[a][0].id);
    } else {
      OldestLingers(s, a, es);
      ReleaseFlow(g, s, P, a);
      ReleaseBlocks(g, s, a);
      assert ResultsOf(held, s.fire[a][0].id) == ResultsIn(s.fire[a][0].stage);
      ReleaseTail(g, s, a, es);
      hide Flow, BlocksOk, Release, PassResult, PassAll, LingerOk, ActorBlocks, ResultsOf, ResultsIn;
      assert es == [es[0]] + es[1..];
      PassFirst(g, s, a, held, es[0], es[1..]);
      ReleaseAllPasses(g, Release(g, s, a), P, a, held, es[1..]);
    }
  }

  lemma ReleaseTail(g: Graph, s: State, a: nat, es: seq<Entry>)
    requires WellFormed(g) && Shaped(g, s) && a < |g.actors| && MayRelease(s, a)
    requires es != [] && s.linger[a] == IdsOf(es) && es <= Entries(s.fire[a]) && s.linger[a][0] == s.fire[a][0].id
    ensures
      var t := Release(g, s, a);
      && t == PassResult(g, s, a, ResultsIn(s.fire[a][0].stage))
      && t.fire[a] == s.fire[a][1..] && t.linger[a] == IdsOf(es[1..]) && es[1..] <= Entries(t.fire[a])
  {
    hide WellFormed;
    assert s.linger[a][1..] == IdsOf(es[1..]);
    assert Entries(s.fire[a][1..]) == Entries(s.fire[a])[1..];
  }

  lemma OldestLingers(s: State, a: nat, es: seq<Entry>)
    requires a < |s.fire| == |s.linger| && LingerOk(s, a) && FireListOk(s.fire[a])
    requires es != [] && s.linger[a] == IdsOf(es) && es <= Entries(s.fire[a])
    ensures MayRelease(s, a) && s.linger[a][0] == s.fire[a][0].id == es[0].id
  {
    assert es[0] == Entries(s.fire[a])[0] && s.linger[a][0] in s.linger[a];
    assert LingersIn(s.fire[a], s.fire[a][0].id);
  }

  // When the lists are in order the written handler does what is meant.
  lemma InOrderIsIntended(g: Graph, s: State, P: int, b: nat)
    requires Delivering(g, s, P, b) && InOrder(s, s.blocks[b].actor)
    ensures Ends(DrainOf(s, s.blocks[b].actor))
    ensures Delivered(g, s, P, b) == ReleaseAll(g, Arrive(s, b), s.blocks[b].actor)
  {
    var a, t := s.blocks[b].actor, Arrive(s, b);
    var d := DrainOf(s, a);
    WaitingBehindOldest(g, s, P, a);
    DrainInOrderIff(s.fire[a][0].block, d.fire, d.linger);
    assert EndsWith(d, d.fire[..|d.linger|]) && Ends(d);
    OutcomeIsOne(d, Outcome(d), d.fire[..|d.linger|]);
    ArriveFlow(g, s, P, b);
    OldestArrives(g, s, P, b);
    OutcomeFits(g, s, P, b);
    assert d.fire[..|d.linger|] == d.linger;
    ArrivesFirst(g, s, P, b);
    assert ActorBlocks(t, a);
    FirstOfLists(s.fire[a], t.fire[a], s.linger[a], b);
    hide Inv, Flow, BlocksOk, Delivering, Ends, EndsWith, Outcome;
    HeldResults(t.fire[a]);
    ReleaseAllPasses(g, t, P, a, t.fire[a], [Entry(s.fire[a][0].id, b)] + d.linger);
  }

  // The arriving result is the first of the lists in order.
  lemma FirstOfLists(fire: seq<Firing>, now: seq<Firing>, linger: seq<nat>, b: nat)
    requires fire != [] && |now| == |fire| && now == fire[0 := now[0]] && now[0].id == fire[0].id && now[0].block == fire[0].block == b
    requires Lingers(fire, linger) <= Entries(fire)[1..]
    ensures
      var es := [Entry(fire[0].id, b)] + Lingers(fire, linger);
      [fire[0].id] + linger == IdsOf(es) && es <= Entries(now)
  {
    SameEntries(fire, now[0]);
    hide Entries;
  }

  lemma ArrivesFirst(g: Graph, s: State, P: int, b: nat)
    requires Delivering(g, s, P, b)
    ensures
      var a, t := s.blocks[b].actor, Arrive(s, b);
      && |t.fire| == |t.linger| == |s.fire| && |t.fire[a]| == |s.fire[a]|
      && t.fire[a] == s.fire[a][0 := t.fire[a][0]]
      && t.fire[a][0].id == s.fire[a][0].id && t.fire[a][0].block == s.fire[a][0].block == b
      && t.linger[a] == [s.fire[a][0].id] + s.linger[a]
  {
    OldestArrives(g, s, P, b);
  }

  lemma SameEntries(fire: seq<Firing>, f: Firing)
    requires fire != [] && f.id == fire[0].id && f.block == fire[0].block
    ensures Entries(fire[0 := f]) == Entries(fire) == [Entry(fire[0].id, fire[0].block)] + Entries(fire)[1..]
  {
  }

  lemma HeldResults(fire: seq<Firing>)
    requires FireListOk(fire)
    ensures forall k :: 0 <= k < |fire| ==> ResultsOf(fire, fire[k].id) == ResultsIn(fire[k].stage)
  {
    forall k | 0 <= k < |fire|
      ensures Position(fire, fire[k].id) == k
    {
      var j := Position(fire, fire[k].id);
    }
  }

  // The written handler, in every state between events: it returns if and only
  // if each removal finds its block; it passes the results on as meant if and
  // only if the lists are in order, and then leaves the state that is meant.
  lemma WrittenDrainIffInOrder(g: Graph, s: State, P: int, b: nat)
    requires Delivering(g, s, P, b)
    ensures
      var d := DrainOf(s, s.blocks[b].actor);
      && |d.linger| <= |d.fire|
      && (Ends(d) <==> AllFound(d.fire, d.linger))
      && (EndsWith(d, d.fire[..|d.linger|]) <==> InOrder(s, s.blocks[b].actor))
      && (InOrder(s, s.blocks[b].actor) ==>
            Delivered(g, s, P, b) == ReleaseAll(g, Arrive(s, b), s.blocks[b].actor))
  {
    var a := s.blocks[b].actor;
    var d := DrainOf(s, a);
    WaitingBehindOldest(g, s, P, a);
    DrainEndsIff(s.fire[a][0].block, d.fire, d.linger);
    DrainInOrderIff(s.fire[a][0].block, d.fire, d.linger);
    if InOrder(s, a) { InOrderIsIntended(g, s, P, b); }
  }

  // -------------------------------------------------------------------- runs

  ghost predicate KeepsOrder(s: State, ev: Event) {
    Delivers(s, ev) && |s.linger| == |s.fire| ==> InOrder(s, s.blocks[ev.block].actor)
  }

  lemma OrderedIsIntended(g: Graph, s: State, P: int, ev: Event)
    requires Inv(g, s, P) && Enabled(s, ev) && KeepsOrder(s, ev)
    ensures Returns(s, ev) && WrittenNext(g, s, P, ev) == Next(g, s, P, ev)
  {
    if Delivers(s, ev) {
      assert BlockOk(s, ev.block);
      DeliversResult(g, s, P, ev);
      InOrderIsIntended(g, s, P, ev.block);
      DeliverKeeps(g, s, P, ev.block);
    }
  }

  // A run of the program as it is written.
  ghost predicate WrittenRun(g: Graph, P: int, ss: seq<State>, evs: seq<Event>) {
    && |ss| == |evs| + 1
    && (forall k :: 0 <= k < |evs| ==> WrittenStep(g, P, ss[k], evs[k], ss[k + 1]))
  }

  ghost predicate WrittenStep(g: Graph, P: int, s: State, ev: Event, t: State) {
    Inv(g, s, P) && Enabled(s, ev) && Returns(s, ev) && t == WrittenNext(g, s, P, ev)
  }

  // As long as every delivery meets lists in order, the program as written makes
  // the runs that are meant.
  lemma OrderedRunIsRun(g: Graph, P: int, ss: seq<State>, evs: seq<Event>)
    requires WrittenRun(g, P, ss, evs) && forall k :: 0 <= k < |evs| ==> KeepsOrder(ss[k], evs[k])
    ensures Run(g, P, ss, evs)
  {
    forall k | 0 <= k < |evs|
      ensures Inv(g, ss[k], P) && Enabled(ss[k], evs[k]) && ss[k + 1] == Next(g, ss[k], P, evs[k])
    {
      assert WrittenStep(g, P, ss[k], evs[k], ss[k + 1]) && KeepsOrder(ss[k], evs[k]);
      hide Inv, WrittenNext, Next, Returns, KeepsOrder;
      OrderedIsIntended(g, ss[k], P, evs[k]);
    }
  }

  lemma TwoPacketsKeepOrder(g: Graph, s: State, P: int, ev: Event)
    requires Inv(g, s, P) && Enabled(s, ev) && P <= 2
    ensures KeepsOrder(s, ev) && Returns(s, ev) && Inv(g, WrittenNext(g, s, P, ev), P)
  {
    if Delivers(s, ev) { TwoPacketsInOrder(g, s, P, s.blocks[ev.block].actor); }
    OrderedIsIntended(g, s, P, ev);
    NextKeepsInv(g, s, P, ev);
  }

  // With at most two packets the runs of the program as written are exactly the
  // runs that are meant.
  lemma TwoPacketRuns(g: Graph, P: int, ss: seq<State>, evs: seq<Event>)
    requires P <= 2
    ensures WrittenRun(g, P, ss, evs) <==> Run(g, P, ss, evs)
  {
    if WrittenRun(g, P, ss, evs) {
      forall k | 0 <= k < |evs|
        ensures KeepsOrder(ss[k], evs[k])
      {
        assert WrittenStep(g, P, ss[k], evs[k], ss[k + 1]);
        hide Inv, KeepsOrder;
        TwoPacketsKeepOrder(g, ss[k], P, evs[k]);
      }
      OrderedRunIsRun(g, P, ss, evs);
    }
    if Run(g, P, ss, evs) {
      forall k | 0 <= k < |evs|
        ensures WrittenStep(g, P, ss[k], evs[k], ss[k + 1])
      {
        assert Inv(g, ss[k], P) && Enabled(ss[k], evs[k]) && ss[k + 1] == Next(g, ss[k], P, evs[k]);
        hide Inv, WrittenNext, Next, Returns, KeepsOrder;
        TwoPacketsKeepOrder(g, ss[k], P, evs[k]);
        OrderedIsIntended(g, ss[k], P, evs[k]);
      }
    }
  }

  // The whole program as it is written, with at most two packets, so with the
  // one it injects: whatever the graph, the blocks and the order of events, no
  // handler hangs, every run is finite, and it cannot stop before the packets
  // have gone through every actor and every edge.
  lemma WrittenRunsComplete(
    g: Graph, fs: seq<Fifo<Token>>, blocks: nat, packets: seq<int>, ss: seq<State>, evs: seq<Event>)
    requires WellFormed(g) && FreshFifos(g, fs) && blocks > 0 && |packets| <= 2
    requires WrittenRun(g, |packets|, ss, evs) && ss[0] == Start(g, fs, blocks, packets)
    ensures Run(g, |packets|, ss, evs) && |evs| <= 5 * (|g.actors| * |packets|) + 4 * blocks
    ensures
      var P, last := |packets|, ss[|evs|];
      && Inv(g, last, P) && (forall ev :: Enabled(last, ev) ==> Returns(last, ev))
      && (Stuck(last) ==>
            && (forall a :: 0 <= a < |g.actors| ==> Consumed(g, last, a) == P == Emitted(g, last, a))
            && (forall e :: 0 <= e < |last.fifos| ==> last.fifos[e].wptr == P))
  {
    var P, last := |packets|, ss[|evs|];
    TwoPacketRuns(g, P, ss, evs);
    EveryRunCompletes(g, fs, blocks, packets, ss, evs);
    forall ev | Enabled(last, ev)
      ensures Returns(last, ev)
    {
      TwoPacketsKeepOrder(g, last, P, ev);
    }
  }
}
