// The scheduler's events: a block interrupts, an idle block takes a ready
// actor, a transfer ends.  Every handler runs to completion.
module SchedulerSteps {
  import opened TokenFifo
  import opened Dataflow
  import opened TokenFlow

  predicate InFlight(f: Firing) { !f.stage.Lingering? }

  predicate Matches(f: Firing, b: nat) { f.block == b && InFlight(f) }

  // The firing that block b is working on.
  function FiringOf(fire: seq<Firing>, b: nat): (k: nat)
    ensures k <= |fire|
    ensures k < |fire| ==> Matches(fire[k], b)
    ensures k == |fire| ==> forall j :: 0 <= j < |fire| ==> !Matches(fire[j], b)
  {
    if fire == [] then 0 else if Matches(fire[0], b) then 0 else 1 + FiringOf(fire[1..], b)
  }

  function RemoveAt<T>(s: seq<T>, i: nat): (r: seq<T>)
    requires i < |s|
    ensures |r| == |s| - 1
  {
    s[..i] + s[i + 1..]
  }

  // ready_select: the oldest entry of the block's last actor, else the oldest.
  function Select(ready: seq<Ready>, last: int): (r: nat)
    requires ready != []
    ensures r < |ready|
    ensures forall i :: 0 <= i < r ==> ready[i].actor != ready[r].actor
  {
    var r := FirstOf(ready, last);
    if r < |ready| then r else 0
  }

  function FirstOf(ready: seq<Ready>, last: int): (r: nat)
    ensures r <= |ready|
    ensures r < |ready| ==> ready[r].actor == last
    ensures forall i :: 0 <= i < r ==> ready[i].actor != last
  {
    if ready == [] then 0 else if ready[0].actor == last then 0 else 1 + FirstOf(ready[1..], last)
  }

  // -------------------------------------------------------------- invariants

  // A firing in flight occupies its block, which runs its actor; the result
  // flag is up from the moment the block has finished.
  ghost predicate FiringOk(s: State, a: nat, k: nat)
    requires a < |s.fire| == |s.fired| && k < |s.fire[a]|
  {
    var f := s.fire[a][k];
    && f.block < |s.blocks| && f.id < s.fired[a]
    && (InFlight(f) ==>
          var b := s.blocks[f.block];
          b.inflight && b.actor == a && (b.result <==> f.stage.Returning?))
  }

  // One block works on one firing, and ids grow along the list.
  ghost predicate FireListOk(fire: seq<Firing>) {
    && (forall j, k :: 0 <= j < k < |fire| ==> fire[j].id < fire[k].id)
    && (forall j, k :: 0 <= j < k < |fire| && InFlight(fire[j]) && InFlight(fire[k]) ==> fire[j].block != fire[k].block)
  }

  ghost predicate ActorBlocks(s: State, a: nat)
    requires a < |s.fire| == |s.fired|
  {
    && FireListOk(s.fire[a])
    && (forall k :: 0 <= k < |s.fire[a]| ==> FiringOk(s, a, k))
  }

  ghost predicate BlockOk(s: State, b: nat)
    requires b < |s.blocks|
  {
    var k := s.blocks[b];
    && (k.inflight ==> k.infifo && 0 <= k.actor < |s.fire| && FiringOf(s.fire[k.actor], b) < |s.fire[k.actor]|)
    && (!k.inflight ==> !k.result)
  }

  // The idle queue holds exactly the blocks that reported idle and were not
  // given work since, each once.
  ghost predicate IdleOk(s: State) {
    && (forall i, j :: 0 <= i < j < |s.idle| ==> s.idle[i] != s.idle[j])
    && (forall b: nat :: b in s.idle <==> b < |s.blocks| && s.blocks[b].infifo && !s.blocks[b].inflight)
  }

  // The linger list holds exactly the ids of results that arrived early.
  ghost predicate LingerOk(s: State, a: nat)
    requires a < |s.fire| == |s.linger|
  {
    && (forall i, j :: 0 <= i < j < |s.linger[a]| ==> s.linger[a][i] != s.linger[a][j])
    && (forall id :: id in s.linger[a] <==> LingersIn(s.fire[a], id))
  }

  ghost predicate LingersIn(fire: seq<Firing>, id: nat) {
    exists k :: 0 <= k < |fire| && fire[k].id == id && !InFlight(fire[k])
  }

  ghost predicate BlocksOk(g: Graph, s: State) {
    && Shaped(g, s)
    && (forall a :: 0 <= a < |s.fire| ==> ActorBlocks(s, a) && LingerOk(s, a))
    && (forall b :: 0 <= b < |s.blocks| ==> BlockOk(s, b))
    && IdleOk(s)
  }

  // What holds between any two events: besides the counts and the blocks, the
  // oldest firing's result never just waits, and nobody could be made ready.
  ghost predicate Inv(g: Graph, s: State, P: int) {
    && Flow(g, s, P) && BlocksOk(g, s) && Quiet(g, s, P, |g.actors|)
    && (forall a :: 0 <= a < |s.fire| ==> !MayRelease(s, a))
  }

  // ------------------------------------------------------------------ events

  datatype Event =
    | Interrupt(block: nat, ret: nat)  // a block reports idle, or reports ret results
    | Check                            // one turn of actor_check with work to hand out
    | TransferDone(block: nat)         // arguments loaded, or results written back

  function StageOf(s: State, b: nat): Stage
    requires b < |s.blocks| && 0 <= s.blocks[b].actor < |s.fire|
    requires FiringOf(s.fire[s.blocks[b].actor], b) < |s.fire[s.blocks[b].actor]|
  {
    s.fire[s.blocks[b].actor][FiringOf(s.fire[s.blocks[b].actor], b)].stage
  }

  // Each firing is loaded, computed and returned once, in that order, a block
  // reports idle once, and a task returns something.
  ghost predicate Enabled(s: State, ev: Event)
    requires forall b :: 0 <= b < |s.blocks| ==> BlockOk(s, b)
  {
    match ev
    case Interrupt(b, ret) =>
      b < |s.blocks| && assert BlockOk(s, b); if s.blocks[b].inflight then StageOf(s, b).Running? && ret >= 1 else !s.blocks[b].infifo
    case Check => s.idle != [] && s.ready != []
    case TransferDone(b) =>
      b < |s.blocks| && assert BlockOk(s, b); s.blocks[b].inflight && !StageOf(s, b).Running?
  }

  // actor_check: the first idle block takes the selected ready entry.
  function HandOut(s: State): State
    requires s.idle != [] && s.ready != [] && s.idle[0] < |s.blocks|
    requires |s.fire| == |s.fired| && forall i :: 0 <= i < |s.ready| ==> s.ready[i].actor < |s.fire|
  {
    var b := s.idle[0];
    var r := Select(s.ready, s.blocks[b].actor);
    var a := s.ready[r].actor;
    var f := Firing(s.fired[a], b, Loading(s.ready[r].deps));
    s.(idle := s.idle[1..], ready := RemoveAt(s.ready, r),
       blocks := s.blocks[b := s.blocks[b].(inflight := true, actor := a)],
       fire := s.fire[a := s.fire[a] + [f]], fired := s.fired[a := s.fired[a] + 1])
  }

  // The data cells alloc_result makes: one per returned result, counted by fan-out.
  function NewCells(g: Graph, a: nat, id: nat, args: seq<int>, n: nat): (cs: seq<Cell>)
    requires a < |g.actors| && n <= |g.actors[a].outs|
    ensures |cs| == n
    ensures forall i :: 0 <= i < n ==> cs[i] == Cell(g.compute(a, i, args), |g.actors[a].outs[i]|, false, Result(a, i, id))
  {
    if n == 0 then []
    else NewCells(g, a, id, args, n - 1) + [Cell(g.compute(a, n - 1, args), |g.actors[a].outs[n - 1]|, false, Result(a, n - 1, id))]
  }

  function SetStage(s: State, a: nat, k: nat, stage: Stage): State
    requires a < |s.fire| && k < |s.fire[a]|
  {
    s.(fire := s.fire[a := s.fire[a][k := s.fire[a][k].(stage := stage)]])
  }

  // block_handler for a block in flight: its results get data cells, and are
  // sent back; results beyond the ones returned will be pseudo tokens.
  function Computed(g: Graph, s: State, b: nat, ret: nat): State
    requires b < |s.blocks| && BlockOk(s, b) && s.blocks[b].inflight && StageOf(s, b).Running?
    requires |s.fire| == |g.actors|
  {
    var a := s.blocks[b].actor;
    var k := FiringOf(s.fire[a], b);
    var f := s.fire[a][k];
    var n := if ret < |g.actors[a].outs| then ret else |g.actors[a].outs|;
    var t := SetStage(s, a, k, Returning(seq(n, i => |s.cells| + i)));
    t.(cells := s.cells + NewCells(g, a, f.id, f.stage.args, n), blocks := s.blocks[b := s.blocks[b].(result := true)])
  }

  // block_handler for an idle block.
  function ReportIdle(s: State, b: nat): State
    requires b < |s.blocks|
  {
    s.(blocks := s.blocks[b := s.blocks[b].(infifo := true)], idle := s.idle + [b])
  }

  // recycle_garbage: each loaded token gives up its share of its data; the
  // list is walked from the newest entry.
  function Recycle(cells: seq<Cell>, deps: seq<nat>): (cs: seq<Cell>)
    ensures |cs| == |cells|
    decreases |deps|
  {
    if deps == [] then cells
    else Recycle(RecycleOne(cells, deps[|deps| - 1]), deps[..|deps| - 1])
  }

  function RecycleOne(cells: seq<Cell>, d: nat): (cs: seq<Cell>)
    ensures |cs| == |cells|
  {
    if d >= |cells| then cells
    else if cells[d].cnt == 1 then cells[d := cells[d].(freed := true)]
    else cells[d := cells[d].(cnt := cells[d].cnt - 1)]
  }

  // What the load transfer reads.
  function Values(cells: seq<Cell>, deps: seq<nat>): (vs: seq<int>)
    ensures |vs| == |deps|
  {
    if deps == [] then []
    else Values(cells, deps[..|deps| - 1]) +
         [if deps[|deps| - 1] < |cells| then cells[deps[|deps| - 1]].val else 0]
  }

  function Loaded(s: State, b: nat): State
    requires b < |s.blocks| && BlockOk(s, b) && s.blocks[b].inflight && StageOf(s, b).Loading?
  {
    var a := s.blocks[b].actor;
    var k := FiringOf(s.fire[a], b);
    var deps := s.fire[a][k].stage.deps;
    SetStage(s, a, k, Running(Values(s.cells, deps))).(cells := Recycle(s.cells, deps))
  }

  function Minus(ids: seq<nat>, id: nat): seq<nat> {
    if ids == [] then [] else if ids[0] == id then ids[1..] else [ids[0]] + Minus(ids[1..], id)
  }

  // linger_insert: the result joins the linger list, and its block is free.
  function Arrive(s: State, b: nat): State
    requires b < |s.blocks| && BlockOk(s, b) && s.blocks[b].inflight && StageOf(s, b).Returning?
    requires |s.linger| == |s.fire|
  {
    var a := s.blocks[b].actor;
    var k := FiringOf(s.fire[a], b);
    var t := SetStage(s, a, k, Lingering(s.fire[a][k].stage.results));
    t.(linger := s.linger[a := [s.fire[a][k].id] + s.linger[a]],
       blocks := s.blocks[b := Block(false, false, false, s.blocks[b].actor)])
  }

  predicate MayRelease(s: State, a: nat)
    requires a < |s.fire|
  {
    s.fire[a] != [] && s.fire[a][0].stage.Lingering?
  }

  // scheduler_pass_result for the oldest firing: its tokens go to the
  // successors and it leaves the fire list and the linger list.
  function Release(g: Graph, s: State, a: nat): (t: State)
    requires WellFormed(g) && Shaped(g, s) && a < |g.actors| && MayRelease(s, a)
    ensures Shaped(g, t)
  {
    ActorRowsIn(g, s, a);
    s.(fifos := PutResults(s.fifos, g.actors[a].outs, s.fire[a][0].stage.results),
       fire := s.fire[a := s.fire[a][1..]], linger := s.linger[a := Minus(s.linger[a], s.fire[a][0].id)])
  }

  // The drain: while the oldest firing's result is there, pass it on.
  function ReleaseAll(g: Graph, s: State, a: nat): (t: State)
    requires WellFormed(g) && Shaped(g, s) && a < |g.actors|
    ensures Shaped(g, t) && !MayRelease(t, a)
    decreases |s.fire[a]|
  {
    if MayRelease(s, a) then ReleaseAll(g, Release(g, s, a), a) else s
  }
}
