// Whole runs of the scheduler: from the packets to the last token.
module SchedulerRuns {
  import opened TokenFifo
  import opened Dataflow
  import opened TokenFlow
  import opened SchedulerSteps
  import opened SchedulerInvariants

  // dma_transfer_done_handler for a result: out of order it only joins the
  // linger list; in order it and every result waiting behind it are passed on,
  // and the actors are swept.
  ghost function ResultDone(g: Graph, s: State, P: int, b: nat): State
    requires Inv(g, s, P) && b < |s.blocks| && BlockOk(s, b) && s.blocks[b].inflight && StageOf(s, b).Returning?
  {
    var a := s.blocks[b].actor;
    var t := Arrive(s, b);
    if s.fire[a][0].block != b then t
    else
      DeliverKeeps(g, s, P, b);
      Sweep(g, ReleaseAll(g, t, a), P)
  }

  ghost function Next(g: Graph, s: State, P: int, ev: Event): State
    requires Inv(g, s, P) && Enabled(s, ev)
  {
    match ev
    case Interrupt(b, ret) =>
      var t := if s.blocks[b].inflight then assert BlockOk(s, b); Computed(g, s, b, ret) else s;
      if t.blocks[b].infifo then t else ReportIdle(t, b)
    case Check =>
      assert s.idle[0] in s.idle;
      HandOut(s)
    case TransferDone(b) =>
      assert BlockOk(s, b);
      ResultFlag(g, s, b);
      if !s.blocks[b].result then Loaded(s, b) else ResultDone(g, s, P, b)
  }

  // The result flag tells load transfers from result transfers.
  lemma ResultFlag(g: Graph, s: State, b: nat)
    requires BlocksOk(g, s) && b < |s.blocks| && BlockOk(s, b) && s.blocks[b].inflight
    ensures s.blocks[b].result <==> StageOf(s, b).Returning?
    ensures InFlight(s.fire[s.blocks[b].actor][FiringOf(s.fire[s.blocks[b].actor], b)])
  {
    var a := s.blocks[b].actor;
    assert ActorBlocks(s, a) && FiringOk(s, a, FiringOf(s.fire[a], b));
  }

  lemma ArriveFlow(g: Graph, s: State, P: int, b: nat)
    requires Flow(g, s, P) && BlocksOk(g, s)
    requires b < |s.blocks| && BlockOk(s, b) && s.blocks[b].inflight && StageOf(s, b).Returning?
    ensures Flow(g, Arrive(s, b), P) && BlocksOk(g, Arrive(s, b))
    ensures Quiet(g, s, P, |g.actors|) ==> Quiet(g, Arrive(s, b), P, |g.actors|)
  {
    ArriveBlocks(g, s, b);
    SameFlow(g, s, Arrive(s, b), P);
  }

  // What the drain leaves alone.
  ghost predicate DrainsOnly(s: State, t: State, a: nat)
    requires a < |s.fire|
  {
    && t == s.(fifos := t.fifos, fire := t.fire, linger := t.linger)
    && |t.fire| == |s.fire|
    && (forall c :: 0 <= c < |s.fire| && c != a ==> t.fire[c] == s.fire[c])
  }

  lemma {:induction false} ReleaseAllKeeps(g: Graph, s: State, P: int, a: nat)
    requires Flow(g, s, P) && BlocksOk(g, s) && a < |g.actors|
    ensures Flow(g, ReleaseAll(g, s, a), P) && BlocksOk(g, ReleaseAll(g, s, a))
    ensures DrainsOnly(s, ReleaseAll(g, s, a), a)
    decreases |s.fire[a]|
  {
    if MayRelease(s, a) {
      ReleaseFlow(g, s, P, a);
      ReleaseBlocks(g, s, a);
      hide Flow, BlocksOk;
      ReleaseAllKeeps(g, Release(g, s, a), P, a);
    }
  }

  lemma DeliverKeeps(g: Graph, s: State, P: int, b: nat)
    requires Inv(g, s, P) && b < |s.blocks| && BlockOk(s, b) && s.blocks[b].inflight && StageOf(s, b).Returning?
    ensures
      var a := s.blocks[b].actor;
      var t := ReleaseAll(g, Arrive(s, b), a);
      && Flow(g, t, P) && BlocksOk(g, t) && DrainsOnly(Arrive(s, b), t, a)
      && Flow(g, Arrive(s, b), P) && BlocksOk(g, Arrive(s, b))
  {
    ArriveFlow(g, s, P, b);
    ReleaseAllKeeps(g, Arrive(s, b), P, s.blocks[b].actor);
  }

  // The block of the oldest firing is the arriving one exactly when the
  // arriving result is the oldest firing's.
  lemma OldestArrives(g: Graph, s: State, P: int, b: nat)
    requires Inv(g, s, P) && b < |s.blocks| && BlockOk(s, b) && s.blocks[b].inflight
    ensures
      var a := s.blocks[b].actor;
      s.fire[a][0].block == b <==> FiringOf(s.fire[a], b) == 0
  {
    var a := s.blocks[b].actor;
    assert ActorBlocks(s, a) && !MayRelease(s, a);
    if s.fire[a][0].block == b { FiringIsUnique(s.fire[a], b, 0); }
  }

  // BlocksOk does not look into the FIFOs or the ready list.
  lemma SweepBlocks(g: Graph, s: State, P: int)
    requires Flow(g, s, P) && BlocksOk(g, s)
    ensures BlocksOk(g, Sweep(g, s, P))
  {
    SweepKeepsRest(g, s, P, 0);
    var t := Sweep(g, s, P);
    forall a | 0 <= a < |t.fire|
      ensures ActorBlocks(t, a) && LingerOk(t, a)
    {
      assert ActorBlocks(s, a) && LingerOk(s, a);
      forall k | 0 <= k < |t.fire[a]|
        ensures FiringOk(t, a, k)
      {
        assert FiringOk(s, a, k);
      }
    }
    forall b | 0 <= b < |t.blocks|
      ensures BlockOk(t, b)
    {
      assert BlockOk(s, b);
    }
  }

  lemma ResultDoneKeepsInv(g: Graph, s: State, P: int, b: nat)
    requires Inv(g, s, P) && b < |s.blocks| && BlockOk(s, b) && s.blocks[b].inflight && StageOf(s, b).Returning?
    ensures Inv(g, ResultDone(g, s, P, b), P)
  {
    var a := s.blocks[b].actor;
    var t := Arrive(s, b);
    DeliverKeeps(g, s, P, b);
    ArriveFlow(g, s, P, b);
    OldestArrives(g, s, P, b);
    hide Flow, BlocksOk, Quiet;
    if s.fire[a][0].block == b {
      var u := ReleaseAll(g, t, a);
      SweepIsFixpoint(g, u, P);
      SweepBlocks(g, u, P);
      SweepKeepsRest(g, u, P, 0);
      var v := Sweep(g, u, P);
      assert v.fire == u.fire;
      forall c | 0 <= c < |v.fire|
        ensures !MayRelease(v, c)
      {
        assert !MayRelease(s, c);
      }
    } else {
      forall c | 0 <= c < |t.fire|
        ensures !MayRelease(t, c)
      {
        assert !MayRelease(s, c);
      }
    }
  }

  lemma ComputedKeepsInv(g: Graph, s: State, P: int, b: nat, ret: nat)
    requires Inv(g, s, P) && b < |s.blocks| && BlockOk(s, b) && s.blocks[b].inflight && StageOf(s, b).Running?
    ensures Inv(g, Computed(g, s, b, ret), P)
  {
    var a := s.blocks[b].actor;
    var t := Computed(g, s, b, ret);
    ResultFlag(g, s, b);
    RestageBlocks(g, s, t, a, FiringOf(s.fire[a], b));
    SameFlow(g, s, t, P);
    hide Flow, BlocksOk, Quiet;
    forall c | 0 <= c < |t.fire|
      ensures !MayRelease(t, c)
    {
      assert !MayRelease(s, c);
    }
  }

  lemma LoadedKeepsInv(g: Graph, s: State, P: int, b: nat)
    requires Inv(g, s, P) && b < |s.blocks| && BlockOk(s, b) && s.blocks[b].inflight && StageOf(s, b).Loading?
    ensures Inv(g, Loaded(s, b), P)
  {
    var a := s.blocks[b].actor;
    var t := Loaded(s, b);
    ResultFlag(g, s, b);
    assert s.blocks == s.blocks[b := s.blocks[b].(result := false)];
    RestageBlocks(g, s, t, a, FiringOf(s.fire[a], b));
    SameFlow(g, s, t, P);
    hide Flow, BlocksOk, Quiet;
    forall c | 0 <= c < |t.fire|
      ensures !MayRelease(t, c)
    {
      assert !MayRelease(s, c);
    }
  }

  lemma HandOutKeepsInv(g: Graph, s: State, P: int)
    requires Inv(g, s, P) && s.idle != [] && s.ready != []
    ensures s.idle[0] < |s.blocks| && Inv(g, HandOut(s), P)
  {
    HandOutBlocks(g, s, P);
    HandOutFlow(g, s, P);
    var t := HandOut(s);
    hide Flow, BlocksOk, Quiet;
    forall c | 0 <= c < |t.fire|
      ensures !MayRelease(t, c)
    {
      assert !MayRelease(s, c);
    }
  }

  lemma ReportIdleKeepsInv(g: Graph, s: State, P: int, b: nat)
    requires Inv(g, s, P) && b < |s.blocks| && !s.blocks[b].inflight && !s.blocks[b].infifo
    ensures Inv(g, ReportIdle(s, b), P)
  {
    ReportIdleBlocks(g, s, b);
    SameFlow(g, s, ReportIdle(s, b), P);
    hide Flow, BlocksOk, Quiet;
    forall c | 0 <= c < |s.fire|
      ensures !MayRelease(ReportIdle(s, b), c)
    {
      assert !MayRelease(s, c);
    }
  }

  // Every event, in whatever order they come, keeps the invariants: the counts
  // of every edge and actor, one firing per busy block, and nobody left to be
  // made ready.
  lemma NextKeepsInv(g: Graph, s: State, P: int, ev: Event)
    requires Inv(g, s, P) && Enabled(s, ev)
    ensures Inv(g, Next(g, s, P, ev), P)
  {
    hide Flow, Quiet;
    match ev
    case Interrupt(b, ret) =>
      assert BlockOk(s, b);
      if s.blocks[b].inflight { ComputedKeepsInv(g, s, P, b, ret); } else { ReportIdleKeepsInv(g, s, P, b); }
    case Check =>
      HandOutKeepsInv(g, s, P);
    case TransferDone(b) =>
      assert BlockOk(s, b);
      ResultFlag(g, s, b);
      if s.blocks[b].result { ResultDoneKeepsInv(g, s, P, b); } else { LoadedKeepsInv(g, s, P, b); }
  }

  // ------------------------------------------------------------- termination

  // How many events block b's firing still needs, counting the block's report
  // that it is idle again.
  function StageRank(stage: Stage): int {
    match stage
    case Loading(_) => 4
    case Running(_) => 3
    case Returning(_) => 2
    case Lingering(_) => 0
  }

  function PhaseIn(fire: seq<Firing>, b: nat): int {
    var k := FiringOf(fire, b);
    if k < |fire| then StageRank(fire[k].stage) else 0
  }

  function Phase(s: State, b: nat): int
    requires b < |s.blocks|
  {
    var k := s.blocks[b];
    if k.inflight then (if 0 <= k.actor < |s.fire| then PhaseIn(s.fire[k.actor], b) else 0)
    else if k.infifo then 0 else 1
  }

  function PhaseSum(s: State, n: nat): int
    requires n <= |s.blocks|
  {
    if n == 0 then 0 else PhaseSum(s, n - 1) + Phase(s, n - 1)
  }

  // Firings that have yet to be handed out.
  ghost function Todo(g: Graph, s: State, P: int, a: nat): int
    requires Sized(g, s) && a < |g.actors|
  {
    P - Emitted(g, s, a) - |s.fire[a]|
  }

  ghost function TodoSum(g: Graph, s: State, P: int, n: nat): int
    requires Sized(g, s) && n <= |g.actors|
  {
    if n == 0 then 0 else TodoSum(g, s, P, n - 1) + Todo(g, s, P, n - 1)
  }

  ghost function Rank(g: Graph, s: State, P: int): int
    requires Sized(g, s)
  {
    5 * TodoSum(g, s, P, |g.actors|) + PhaseSum(s, |s.blocks|)
  }

  lemma {:induction false} PhaseSumChanges(s: State, t: State, b: nat, n: nat)
    requires n <= |s.blocks| == |t.blocks| && b < |s.blocks|
    requires forall x :: 0 <= x < |s.blocks| && x != b ==> Phase(t, x) == Phase(s, x)
    ensures PhaseSum(t, n) - PhaseSum(s, n) == if b < n then Phase(t, b) - Phase(s, b) else 0
  {
    if n > 0 { PhaseSumChanges(s, t, b, n - 1); }
  }

  lemma {:induction false} PhaseSumSame(s: State, t: State, n: nat)
    requires n <= |s.blocks| == |t.blocks|
    requires forall x :: 0 <= x < |s.blocks| ==> Phase(t, x) == Phase(s, x)
    ensures PhaseSum(t, n) == PhaseSum(s, n)
  {
    if n > 0 { PhaseSumSame(s, t, n - 1); }
  }

  lemma {:induction false} TodoSumDrops(g: Graph, s: State, t: State, P: int, n: nat, a: nat)
    requires Sized(g, s) && Sized(g, t) && n <= |g.actors|
    requires forall c :: 0 <= c < |g.actors| ==> Todo(g, t, P, c) <= Todo(g, s, P, c) - (if c == a then 1 else 0)
    ensures TodoSum(g, t, P, n) <= TodoSum(g, s, P, n) - (if a < n then 1 else 0)
  {
    if n > 0 { TodoSumDrops(g, s, t, P, n - 1, a); }
  }

  lemma {:induction false} RankIsNatural(g: Graph, s: State, P: int, n: nat, m: nat)
    requires Inv(g, s, P) && n <= |g.actors| && m <= |s.blocks|
    ensures 0 <= TodoSum(g, s, P, n) <= n * P && 0 <= PhaseSum(s, m) <= 4 * m
  {
    if n > 0 {
      RankIsNatural(g, s, P, n - 1, m);
      FlowBounds(g, s, P, n - 1);
      assert ActorFlow(g, s, n - 1);
      assert n * P == (n - 1) * P + P;
    } else if m > 0 {
      RankIsNatural(g, s, P, 0, m - 1);
    }
  }

  // ---- each event lowers the rank

  lemma HandOutRank(g: Graph, s: State, P: int)
    requires Inv(g, s, P) && s.idle != [] && s.ready != []
    ensures s.idle[0] < |s.blocks| && Sized(g, HandOut(s)) && Rank(g, HandOut(s), P) < Rank(g, s, P)
  {
    HandOutKeepsInv(g, s, P);
    var b := s.idle[0];
    var a := s.ready[Select(s.ready, s.blocks[b].actor)].actor;
    var t := HandOut(s);
    assert b in s.idle && ActorBlocks(s, a);
    var f := t.fire[a][|s.fire[a]|];
    forall k | 0 <= k < |s.fire[a]|
      ensures s.fire[a][k].id < f.id && !Matches(s.fire[a][k], b)
    {
      assert FiringOk(s, a, k);
    }
    forall x | 0 <= x < |s.blocks|
      ensures x != b ==> Phase(t, x) == Phase(s, x)
      ensures x == b ==> Phase(t, x) == 4 && Phase(s, x) == 0
    {
      assert BlockOk(s, x);
      AppendFiring(s.fire[a], f, x, 0);
    }
    PhaseSumChanges(s, t, b, |s.blocks|);
    TodoSumDrops(g, s, t, P, |g.actors|, a);
  }

  lemma RestageRank(g: Graph, s: State, t: State, P: int, a: nat, k: nat)
    requires Inv(g, s, P) && Inv(g, t, P) && a < |s.fire| && k < |s.fire[a]| && |t.fire[a]| == |s.fire[a]|
    requires
      var f, f' := s.fire[a][k], t.fire[a][k];
      && InFlight(f) && InFlight(f') && f'.id == f.id && f'.block == f.block < |s.blocks|
      && t.fire == s.fire[a := s.fire[a][k := f']] && StageRank(f'.stage) < StageRank(f.stage)
      && t.blocks == s.blocks[f.block := s.blocks[f.block].(result := f'.stage.Returning?)]
    requires t.fifos == s.fifos
    ensures Rank(g, t, P) < Rank(g, s, P)
  {
    var b := s.fire[a][k].block;
    assert ActorBlocks(s, a) && FiringOk(s, a, k) && SameShape(s.fire[a], t.fire[a]);
    FiringIsUnique(s.fire[a], b, k);
    assert Sized(g, s) && Sized(g, t) && FireListOk(s.fire[a]);
    hide Inv, Sized, ActorBlocks, FiringOk, FireListOk, SameShape;
    forall x | 0 <= x < |s.blocks|
      ensures x != b ==> Phase(t, x) == Phase(s, x)
      ensures x == b ==> Phase(t, x) < Phase(s, x)
    {
      SameShapeSameList(s.fire[a], t.fire[a], x, 0);
    }
    PhaseSumChanges(s, t, b, |s.blocks|);
    TodoSumDrops(g, s, t, P, |g.actors|, |g.actors|);
  }

  lemma ReportIdleRank(g: Graph, s: State, P: int, b: nat)
    requires Inv(g, s, P) && b < |s.blocks| && !s.blocks[b].inflight && !s.blocks[b].infifo
    ensures Sized(g, ReportIdle(s, b)) && Rank(g, ReportIdle(s, b), P) < Rank(g, s, P)
  {
    var t := ReportIdle(s, b);
    ReportIdleKeepsInv(g, s, P, b);
    PhaseSumChanges(s, t, b, |s.blocks|);
    TodoSumDrops(g, s, t, P, |g.actors|, |g.actors|);
  }

  lemma ArriveRank(g: Graph, s: State, P: int, b: nat)
    requires Inv(g, s, P) && b < |s.blocks| && BlockOk(s, b) && s.blocks[b].inflight && StageOf(s, b).Returning?
    ensures Sized(g, Arrive(s, b)) && Rank(g, Arrive(s, b), P) < Rank(g, s, P)
  {
    var a := s.blocks[b].actor;
    var k := FiringOf(s.fire[a], b);
    var t := Arrive(s, b);
    ArriveFlow(g, s, P, b);
    assert ActorBlocks(s, a);
    forall x | 0 <= x < |s.blocks|
      ensures x != b ==> Phase(t, x) == Phase(s, x)
      ensures x == b ==> Phase(t, x) == 1 && Phase(s, x) == 2
    {
      LandFiring(s.fire[a], k, t.fire[a][k], x, 0);
    }
    PhaseSumChanges(s, t, b, |s.blocks|);
    TodoSumDrops(g, s, t, P, |g.actors|, |g.actors|);
  }

  lemma {:induction false} ReleaseAllRank(g: Graph, s: State, P: int, a: nat)
    requires Flow(g, s, P) && BlocksOk(g, s) && a < |g.actors|
    ensures Sized(g, ReleaseAll(g, s, a)) && Rank(g, ReleaseAll(g, s, a), P) <= Rank(g, s, P)
    decreases |s.fire[a]|
  {
    if MayRelease(s, a) {
      var t := Release(g, s, a);
      ReleaseFlow(g, s, P, a);
      ReleaseBlocks(g, s, a);
      assert ActorBlocks(s, a);
      forall x | 0 <= x < |s.blocks|
        ensures Phase(t, x) == Phase(s, x)
      {
        DropFiring(s.fire[a], x, 0);
      }
      PhaseSumSame(s, t, |s.blocks|);
      forall c | 0 <= c < |g.actors|
        ensures Todo(g, t, P, c) == Todo(g, s, P, c)
      {
        ReleaseActor(g, s, P, a, c);
      }
      TodoSumDrops(g, s, t, P, |g.actors|, |g.actors|);
      ReleaseAllRank(g, t, P, a);
    }
  }

  lemma {:induction false} SweepActorEmits(g: Graph, s: State, P: int, a: nat)
    requires Flow(g, s, P) && a < |g.actors|
    ensures Emitted(g, SweepActor(g, s, P, a), a) >= Emitted(g, s, a)
    decreases P - Consumed(g, s, a)
  {
    FlowBounds(g, s, P, a);
    if FireCheck(g, s, a) {
      ConsumeKeepsFlow(g, s, P, a);
      ConsumeActor(g, s, P, a, a);
      hide Flow, FireCheck, ActorReady;
      SweepActorEmits(g, Consume(g, s, a), P, a);
    }
  }

  lemma SweepActorTodo(g: Graph, s: State, P: int, a: nat, c: nat)
    requires Flow(g, s, P) && a < |g.actors| && c < |g.actors|
    ensures Todo(g, SweepActor(g, s, P, a), P, c) <= Todo(g, s, P, c)
  {
    SweepActorTouchesOnly(g, s, P, a);
    SweepActorEmits(g, s, P, a);
    assert c != a ==> SameCounts(g, s, SweepActor(g, s, P, a), c);
  }

  lemma {:induction false} SweepFromTodo(g: Graph, s: State, P: int, a: nat, c: nat)
    requires Flow(g, s, P) && a <= |g.actors| && c < |g.actors|
    ensures Todo(g, SweepFrom(g, s, P, a), P, c) <= Todo(g, s, P, c)
    decreases |g.actors| - a
  {
    if a < |g.actors| {
      hide Flow;
      SweepActorTodo(g, s, P, a, c);
      SweepFromTodo(g, SweepActor(g, s, P, a), P, a + 1, c);
    }
  }

  lemma SweepRank(g: Graph, s: State, P: int)
    requires Flow(g, s, P)
    ensures Rank(g, Sweep(g, s, P), P) <= Rank(g, s, P)
  {
    var t := Sweep(g, s, P);
    SweepKeepsRest(g, s, P, 0);
    PhaseSumSame(s, t, |s.blocks|);
    forall c | 0 <= c < |g.actors|
      ensures Todo(g, t, P, c) <= Todo(g, s, P, c)
    {
      SweepFromTodo(g, s, P, 0, c);
    }
    TodoSumDrops(g, s, t, P, |g.actors|, |g.actors|);
  }

  lemma ResultDoneRank(g: Graph, s: State, P: int, b: nat)
    requires Inv(g, s, P) && b < |s.blocks| && BlockOk(s, b) && s.blocks[b].inflight && StageOf(s, b).Returning?
    ensures Inv(g, ResultDone(g, s, P, b), P) && Rank(g, ResultDone(g, s, P, b), P) < Rank(g, s, P)
  {
    ResultDoneKeepsInv(g, s, P, b);
    ArriveRank(g, s, P, b);
    DeliverKeeps(g, s, P, b);
    var a := s.blocks[b].actor;
    var t := Arrive(s, b);
    hide Rank;
    if s.fire[a][0].block == b {
      ReleaseAllRank(g, t, P, a);
      SweepRank(g, ReleaseAll(g, t, a), P);
    }
  }

  lemma NextLowersRank(g: Graph, s: State, P: int, ev: Event)
    requires Inv(g, s, P) && Enabled(s, ev)
    ensures Inv(g, Next(g, s, P, ev), P) && Rank(g, Next(g, s, P, ev), P) < Rank(g, s, P)
  {
    NextKeepsInv(g, s, P, ev);
    hide Flow, Quiet, Rank;
    match ev
    case Interrupt(b, ret) =>
      assert BlockOk(s, b);
      if s.blocks[b].inflight {
        ResultFlag(g, s, b);
        var a := s.blocks[b].actor;
        RestageRank(g, s, Computed(g, s, b, ret), P, a, FiringOf(s.fire[a], b));
      } else {
        ReportIdleRank(g, s, P, b);
      }
    case Check =>
      HandOutRank(g, s, P);
    case TransferDone(b) =>
      assert BlockOk(s, b);
      ResultFlag(g, s, b);
      if s.blocks[b].result {
        ResultDoneRank(g, s, P, b);
      } else {
        var a := s.blocks[b].actor;
        assert s.blocks == s.blocks[b := s.blocks[b].(result := false)];
        RestageRank(g, s, Loaded(s, b), P, a, FiringOf(s.fire[a], b));
      }
  }

  // -------------------------------------------------------------------- runs

  // A run of the scheduler; NextKeepsInv shows that Inv never rules a step out.
  ghost predicate Run(g: Graph, P: int, ss: seq<State>, evs: seq<Event>) {
    && |ss| == |evs| + 1
    && (forall k :: 0 <= k < |evs| ==>
          Inv(g, ss[k], P) && Enabled(ss[k], evs[k]) && ss[k + 1] == Next(g, ss[k], P, evs[k]))
  }

  lemma {:induction false} RunKeepsInv(g: Graph, P: int, ss: seq<State>, evs: seq<Event>, k: nat)
    requires Run(g, P, ss, evs) && Inv(g, ss[0], P) && k < |ss|
    ensures Inv(g, ss[k], P)
    ensures Rank(g, ss[k], P) + k <= Rank(g, ss[0], P)
  {
    if k > 0 {
      hide Inv, Rank, Next;
      RunKeepsInv(g, P, ss, evs, k - 1);
      NextLowersRank(g, ss[k - 1], P, evs[k - 1]);
      assert ss[k - 1 + 1] == Next(g, ss[k - 1], P, evs[k - 1]);
    }
  }

  // Every run is finite: five events for each firing and four for each block.
  lemma RunsAreFinite(g: Graph, P: int, ss: seq<State>, evs: seq<Event>)
    requires Run(g, P, ss, evs) && Inv(g, ss[0], P)
    ensures |evs| <= 5 * (|g.actors| * P) + 4 * |ss[0].blocks|
  {
    RunKeepsInv(g, P, ss, evs, |evs|);
    RankIsNatural(g, ss[0], P, |g.actors|, |ss[0].blocks|);
    RankIsNatural(g, ss[|evs|], P, |g.actors|, |ss[|evs|].blocks|);
  }

  // -------------------------------------------------------------- completion

  ghost predicate Stuck(s: State)
    requires forall b :: 0 <= b < |s.blocks| ==> BlockOk(s, b)
  {
    forall ev :: !Enabled(s, ev)
  }

  lemma StuckBlocks(g: Graph, s: State, P: int, b: nat)
    requires Inv(g, s, P) && Stuck(s) && b < |s.blocks|
    ensures !s.blocks[b].inflight && b in s.idle
  {
    assert BlockOk(s, b);
    assert !Enabled(s, Interrupt(b, 1)) && !Enabled(s, TransferDone(b));
  }

  lemma StuckActor(g: Graph, s: State, P: int, a: nat)
    requires Inv(g, s, P) && Stuck(s) && |s.blocks| > 0 && a < |g.actors|
    ensures s.ready == [] && s.fire[a] == [] && Consumed(g, s, a) == Emitted(g, s, a)
  {
    StuckBlocks(g, s, P, 0);
    assert !Enabled(s, Check) && s.idle != [];
    assert ActorBlocks(s, a) && !MayRelease(s, a) && ActorFlow(g, s, a);
    if s.fire[a] != [] {
      assert FiringOk(s, a, 0);
      StuckBlocks(g, s, P, s.fire[a][0].block);
    }
  }

  // With nothing ready and nothing in flight, an actor whose inputs all carried
  // P tokens has fired P times.
  lemma {:induction false} AllPacketsThrough(g: Graph, s: State, P: int, a: nat)
    requires Inv(g, s, P) && Stuck(s) && |s.blocks| > 0 && a < |g.actors|
    ensures Consumed(g, s, a) == P == Emitted(g, s, a)
  {
    StuckActor(g, s, P, a);
    FlowBounds(g, s, P, a);
    assert WellFormedActor(g, a) && !ActorReady(g, s, a);
    forall e | e in g.actors[a].ins
      ensures e < |s.fifos| && s.fifos[e].wptr == P
    {
      assert g.snk[e] == a && g.src[e] < a;
      assert EdgeFlow(g, s, P, e);
      if g.src[e] >= 0 { AllPacketsThrough(g, s, P, g.src[e]); }
    }
  }

  // Completion without deadlock: when no event is left to happen, every actor
  // has fired P times and every edge has carried P tokens, each taken once.
  lemma Completion(g: Graph, s: State, P: int)
    requires Inv(g, s, P) && Stuck(s) && |s.blocks| > 0
    ensures s.ready == []
    ensures forall a :: 0 <= a < |g.actors| ==> s.fire[a] == [] && Consumed(g, s, a) == P == Emitted(g, s, a)
    ensures forall e :: 0 <= e < |s.fifos| ==> s.fifos[e].wptr == P && (g.snk[e] >= 0 ==> s.fifos[e].rptr == P)
  {
    StuckActor(g, s, P, 0);
    forall a | 0 <= a < |g.actors|
      ensures s.fire[a] == [] && Consumed(g, s, a) == P == Emitted(g, s, a)
    {
      StuckActor(g, s, P, a);
      AllPacketsThrough(g, s, P, a);
    }
    forall e | 0 <= e < |s.fifos|
      ensures s.fifos[e].wptr == P && (g.snk[e] >= 0 ==> s.fifos[e].rptr == P)
    {
      assert EdgeFlow(g, s, P, e);
    }
  }

  // ---------------------------------------------------------- initial state

  // Edges fresh from malloc with both pointers at zero, whatever their cells.
  ghost predicate FreshFifos(g: Graph, fs: seq<Fifo<Token>>) {
    && |fs| == |g.src|
    && (forall e :: 0 <= e < |fs| ==> InRange(fs[e]) && fs[e].wptr == 0 && fs[e].rptr == 0)
  }

  // No block has reported yet, nothing is ready.
  function Created(g: Graph, fs: seq<Fifo<Token>>, blocks: nat): State {
    var n := |g.actors|;
    State(fs, [], seq(n, _ => []), seq(n, _ => []), seq(n, _ => 0),
          seq(blocks, _ => Block(false, false, false, -1)), [], [])
  }

  // packet_input: a data cell with one owner and its token enter the root's
  // input, unless that FIFO is full.
  function PacketInput(s: State, value: int): (t: State)
    requires |s.fifos| > 0 && InRange(s.fifos[0])
    ensures |t.fifos| == |s.fifos| && InRange(t.fifos[0])
  {
    if Full(s.fifos[0]) then s
    else s.(fifos := s.fifos[0 := Put(s.fifos[0], Real(|s.cells|))],
            cells := s.cells + [Cell(value, 1, false, Packet(|s.cells|))])
  }

  function Inject(s: State, packets: seq<int>): (t: State)
    requires |s.fifos| > 0 && InRange(s.fifos[0])
    ensures |t.fifos| == |s.fifos|
    decreases |packets|
  {
    if packets == [] then s else Inject(PacketInput(s, packets[0]), packets[1..])
  }

  // The number of packets that get in.
  function Accepted(packets: seq<int>): nat { if |packets| <= 8 then |packets| else 8 }

  // The first eight packets fill the root's input in order; the rest are
  // discarded.
  lemma {:induction false} InjectKeepsEight(s: State, packets: seq<int>, done: seq<int>)
    requires |s.fifos| > 0 && InRange(s.fifos[0]) && s.fifos[0].rptr == 0 && s.fifos[0].wptr == |s.cells| == |done| <= 8
    requires forall k :: 0 <= k < |done| ==> s.fifos[0].cells[k] == Real(k) && s.cells[k] == Cell(done[k], 1, false, Packet(k))
    ensures
      var t, all := Inject(s, packets), done + packets;
      var n := Accepted(all);
      && t == s.(fifos := s.fifos[0 := t.fifos[0]], cells := t.cells)
      && InRange(t.fifos[0]) && t.fifos[0].rptr == 0 && t.fifos[0].wptr == |t.cells| == n
      && (forall k :: 0 <= k < n ==> t.fifos[0].cells[k] == Real(k) && t.cells[k] == Cell(all[k], 1, false, Packet(k)))
    decreases |packets|
  {
    if packets == [] {
      assert done + packets == done;
    } else {
      var u := PacketInput(s, packets[0]);
      if |done| < 8 {
        PutStep(s.fifos[0], Real(|s.cells|), 8);
        assert done + packets == (done + [packets[0]]) + packets[1..];
        InjectKeepsEight(u, packets[1..], done + [packets[0]]);
      } else {
        assert Full(s.fifos[0]) && u == s;
        InjectKeepsEight(s, packets[1..], done);
      }
    }
  }

  // The state when actor_check starts: packets in, one sweep made.
  ghost function Start(g: Graph, fs: seq<Fifo<Token>>, blocks: nat, packets: seq<int>): State
    requires WellFormed(g) && FreshFifos(g, fs)
  {
    InjectedFlow(g, fs, blocks, packets);
    Sweep(g, Inject(Created(g, fs, blocks), packets), Accepted(packets))
  }

  lemma InjectedFlow(g: Graph, fs: seq<Fifo<Token>>, blocks: nat, packets: seq<int>)
    requires WellFormed(g) && FreshFifos(g, fs)
    ensures Flow(g, Inject(Created(g, fs, blocks), packets), Accepted(packets))
    ensures BlocksOk(g, Inject(Created(g, fs, blocks), packets))
  {
    var s := Created(g, fs, blocks);
    InjectKeepsEight(s, packets, []);
    assert [] + packets == packets;
    var t, P := Inject(s, packets), Accepted(packets);
    SizesMatch(g, t);
    hide Inject, WellFormed, FreshFifos;
    forall a | 0 <= a < |g.actors|
      ensures Emitted(g, t, a) == 0 && Consumed(g, t, a) == 0
    {
      FreshActor(g, t, a);
    }
    forall e | 0 <= e < |t.fifos|
      ensures EdgeFlow(g, t, P, e)
    {
      FreshEdge(g, t, P, e);
    }
    forall a | 0 <= a < |g.actors|
      ensures ActorFlow(g, t, a)
    {
    }
  }

  // Only edge 0 has been written, and nothing has been read.
  ghost predicate OnlyInput(s: State) {
    && |s.fifos| > 0 && (forall e :: 0 <= e < |s.fifos| ==> s.fifos[e].rptr == 0)
    && (forall e :: 1 <= e < |s.fifos| ==> s.fifos[e].wptr == 0)
  }

  lemma FreshActor(g: Graph, s: State, a: nat)
    requires Sized(g, s) && a < |g.actors| && OnlyInput(s)
    ensures Emitted(g, s, a) == 0 && Consumed(g, s, a) == 0
  {
    assert HasEnds(g, s, a) && WellFormedActor(g, a) && MadeBy(g, g.actors[a].outs[0], a);
    assert g.actors[a].outs[0][0] in g.actors[a].outs[0] && g.src[g.actors[a].outs[0][0]] == a;
  }

  lemma FreshEdge(g: Graph, s: State, P: int, e: nat)
    requires Sized(g, s) && OnlyInput(s) && e < |s.fifos| && s.fifos[0].wptr == P >= 0
    requires forall a :: 0 <= a < |g.actors| ==> Emitted(g, s, a) == 0 && Consumed(g, s, a) == 0
    ensures EdgeFlow(g, s, P, e)
  {
    assert g.src[e] < 0 <==> e == 0;
  }

  lemma StartInv(g: Graph, fs: seq<Fifo<Token>>, blocks: nat, packets: seq<int>)
    requires WellFormed(g) && FreshFifos(g, fs)
    ensures Inv(g, Start(g, fs, blocks, packets), Accepted(packets))
  {
    var s, P := Inject(Created(g, fs, blocks), packets), Accepted(packets);
    InjectedFlow(g, fs, blocks, packets);
    InjectKeepsEight(Created(g, fs, blocks), packets, []);
    SweepIsFixpoint(g, s, P);
    SweepBlocks(g, s, P);
    SweepKeepsRest(g, s, P, 0);
  }

  // The whole program: whatever the graph, the packets, the number of blocks
  // and the order of events, every run is finite, and once it cannot go on all
  // packets have gone through every actor and every edge.
  lemma EveryRunCompletes(
    g: Graph, fs: seq<Fifo<Token>>, blocks: nat, packets: seq<int>, ss: seq<State>, evs: seq<Event>)
    requires WellFormed(g) && FreshFifos(g, fs) && blocks > 0
    requires Run(g, Accepted(packets), ss, evs) && ss[0] == Start(g, fs, blocks, packets)
    ensures
      var P, last := Accepted(packets), ss[|evs|];
      && Inv(g, last, P)
      && |evs| <= 5 * (|g.actors| * P) + 4 * blocks
      && (Stuck(last) ==>
            && (forall a :: 0 <= a < |g.actors| ==> Consumed(g, last, a) == P == Emitted(g, last, a))
            && (forall e :: 0 <= e < |last.fifos| ==> last.fifos[e].wptr == P))
  {
    var P, last := Accepted(packets), ss[|evs|];
    StartInv(g, fs, blocks, packets);
    StartBlocks(g, fs, blocks, packets);
    RunKeepsInv(g, P, ss, evs, |evs|);
    RunsAreFinite(g, P, ss, evs);
    BlockCount(g, P, ss, evs, |evs|);
    if Stuck(last) { Completion(g, last, P); }
  }

  // Conservation in every reachable state: what was put into an edge was taken
  // or is in it, what an actor took is ready, being fired or passed on, no FIFO
  // ever wraps, so fifo_size is exact, and no actor is left that could fire.
  lemma RunConservesTokens(
    g: Graph, fs: seq<Fifo<Token>>, blocks: nat, packets: seq<int>, ss: seq<State>, evs: seq<Event>, k: nat)
    requires WellFormed(g) && FreshFifos(g, fs) && k < |ss|
    requires Run(g, Accepted(packets), ss, evs) && ss[0] == Start(g, fs, blocks, packets)
    ensures Sized(g, ss[k])
    ensures forall e :: 0 <= e < |ss[k].fifos| ==>
      var f := ss[k].fifos[e];
      0 <= f.rptr <= f.wptr <= Accepted(packets) && f.wptr == f.rptr + |Contents(f)| && Size(f) == |Contents(f)|
    ensures forall a :: 0 <= a < |g.actors| ==>
      Consumed(g, ss[k], a) == Emitted(g, ss[k], a) + |ReadyOf(ss[k].ready, a)| + |ss[k].fire[a]|
    ensures forall a :: 0 <= a < |g.actors| ==> !FireCheck(g, ss[k], a)
  {
    var P, s := Accepted(packets), ss[k];
    StartInv(g, fs, blocks, packets);
    RunKeepsInv(g, P, ss, evs, k);
    forall e | 0 <= e < |s.fifos|
      ensures
        var f := s.fifos[e];
        0 <= f.rptr <= f.wptr <= P && f.wptr == f.rptr + |Contents(f)| && Size(f) == |Contents(f)|
    {
      assert EdgeFlow(g, s, P, e);
      NoFifoWraps(g, s, P, e);
    }
    forall a | 0 <= a < |g.actors|
      ensures Consumed(g, s, a) == Emitted(g, s, a) + |ReadyOf(s.ready, a)| + |s.fire[a]|
      ensures !FireCheck(g, s, a)
    {
      assert ActorFlow(g, s, a) && !ActorReady(g, s, a);
    }
  }

  lemma StartBlocks(g: Graph, fs: seq<Fifo<Token>>, blocks: nat, packets: seq<int>)
    requires WellFormed(g) && FreshFifos(g, fs)
    ensures |Start(g, fs, blocks, packets).blocks| == blocks
  {
    InjectedFlow(g, fs, blocks, packets);
    InjectKeepsEight(Created(g, fs, blocks), packets, []);
    SweepKeepsRest(g, Inject(Created(g, fs, blocks), packets), Accepted(packets), 0);
  }

  lemma {:induction false} BlockCount(g: Graph, P: int, ss: seq<State>, evs: seq<Event>, k: nat)
    requires Run(g, P, ss, evs) && k < |ss|
    ensures |ss[k].blocks| == |ss[0].blocks|
  {
    if k > 0 {
      BlockCount(g, P, ss, evs, k - 1);
      NextKeepsBlockCount(g, ss[k - 1], P, evs[k - 1]);
      assert ss[k - 1 + 1] == Next(g, ss[k - 1], P, evs[k - 1]);
    }
  }

  lemma NextKeepsBlockCount(g: Graph, s: State, P: int, ev: Event)
    requires Inv(g, s, P) && Enabled(s, ev)
    ensures |Next(g, s, P, ev).blocks| == |s.blocks|
  {
    if ev.TransferDone? {
      var b := ev.block;
      assert BlockOk(s, b);
      ResultFlag(g, s, b);
      if s.blocks[b].result {
        DeliverKeeps(g, s, P, b);
        SweepKeepsRest(g, ReleaseAll(g, Arrive(s, b), s.blocks[b].actor), P, 0);
      }
    }
  }
}
