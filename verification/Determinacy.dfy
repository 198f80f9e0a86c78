// Determinacy of static graphs: whichever blocks are used and in whatever order
// they finish, the k-th token on an edge carries the value that the graph alone
// assigns to it.
module Determinacy {
  import opened TokenFifo
  import opened Dataflow
  import opened TokenFlow
  import opened SchedulerSteps
  import opened SchedulerInvariants
  import opened SchedulerRuns

  // ------------------------------------------------ what the graph computes

  // The k-th value on edge e when packet k has the value packets[k]: no blocks,
  // no lists and no order in time.
  function RefEdge(g: Graph, packets: seq<int>, e: nat, k: nat): int
    requires WellFormed(g) && e < |g.src|
    decreases 2 * g.src[e] + 2
  {
    if g.src[e] >= 0 then g.compute(g.src[e], RowOf(g.actors[g.src[e]].outs, e), RefArgs(g, packets, g.src[e], k))
    else if k < |packets| then packets[k] else 0
  }

  // Actor a's k-th arguments, in slot order.
  function RefArgs(g: Graph, packets: seq<int>, a: nat, k: nat): (args: seq<int>)
    requires WellFormed(g) && a < |g.actors|
    ensures |args| == |g.actors[a].ins|
    decreases 2 * a + 1
  {
    var ins := g.actors[a].ins;
    assert WellFormedActor(g, a);
    seq(|ins|, i requires 0 <= i < |ins| => assert ins[i] in ins; RefEdge(g, packets, ins[i], k))
  }

  // Whose result travels as the k-th token of edge e.
  function OriginOf(g: Graph, e: nat, k: nat): Origin
    requires WellFormed(g) && e < |g.src|
  {
    if g.src[e] < 0 then Packet(k) else Result(g.src[e], RowOf(g.actors[g.src[e]].outs, e), k)
  }

  // --------------------------------------------------------- the invariant

  predicate Made(cells: seq<Cell>, d: nat, o: Origin) { d < |cells| && cells[d].origin == o }

  // A data cell holds what its origin should have computed.
  ghost predicate CellRight(g: Graph, packets: seq<int>, c: Cell)
    requires WellFormed(g)
  {
    match c.origin
    case Packet(k) => k < |packets| && c.val == packets[k]
    case Result(a, i, k) =>
      a < |g.actors| && i < |g.actors[a].outs| && c.val == g.compute(a, i, RefArgs(g, packets, a, k))
  }

  ghost predicate CellsRight(g: Graph, packets: seq<int>, cells: seq<Cell>)
    requires WellFormed(g)
  {
    forall d :: 0 <= d < |cells| ==> CellRight(g, packets, cells[d])
  }

  // Every token ever put into edge e, in order.
  ghost predicate EdgeRight(g: Graph, s: State, e: nat)
    requires WellFormed(g) && Shaped(g, s) && e < |s.fifos|
  {
    forall k :: 0 <= k < s.fifos[e].wptr ==> TokenRight(g, s, e, k)
  }

  ghost predicate TokenRight(g: Graph, s: State, e: nat, k: nat)
    requires WellFormed(g) && Shaped(g, s) && e < |s.fifos|
  {
    k < |s.fifos[e].cells| && s.fifos[e].cells[k].Real? && Made(s.cells, s.fifos[e].cells[k].data, OriginOf(g, e, k))
  }

  ghost predicate DepsRight(g: Graph, cells: seq<Cell>, a: nat, k: nat, deps: seq<nat>)
    requires WellFormed(g) && a < |g.actors|
  {
    var ins := g.actors[a].ins;
    |deps| == |ins| && forall i :: 0 <= i < |ins| ==> ins[i] < |g.src| && Made(cells, deps[i], OriginOf(g, ins[i], k))
  }

  ghost predicate ResultsRight(g: Graph, cells: seq<Cell>, a: nat, k: nat, results: seq<nat>)
    requires a < |g.actors|
  {
    |results| == |g.actors[a].outs| && forall i :: 0 <= i < |results| ==> Made(cells, results[i], Result(a, i, k))
  }

  ghost predicate StageRight(g: Graph, packets: seq<int>, cells: seq<Cell>, a: nat, f: Firing)
    requires WellFormed(g) && a < |g.actors|
  {
    match f.stage
    case Loading(deps) => DepsRight(g, cells, a, f.id, deps)
    case Running(args) => args == RefArgs(g, packets, a, f.id)
    case Returning(rs) => ResultsRight(g, cells, a, f.id, rs)
    case Lingering(rs) => ResultsRight(g, cells, a, f.id, rs)
  }

  // Firings are numbered by their results' place on the out-edges, and ready
  // entries come next, in order.
  ghost predicate ActorRight(g: Graph, packets: seq<int>, s: State, a: nat)
    requires Sized(g, s) && a < |g.actors|
  {
    var n := Emitted(g, s, a);
    && n >= 0 && s.fired[a] == n + |s.fire[a]|
    && FireRight(g, packets, s.cells, a, n, s.fire[a])
    && ReadyRight(g, s.cells, a, n + |s.fire[a]|, ReadyOf(s.ready, a))
  }

  ghost predicate FireRight(g: Graph, packets: seq<int>, cells: seq<Cell>, a: nat, n: int, fire: seq<Firing>)
    requires WellFormed(g) && a < |g.actors|
  {
    forall j :: 0 <= j < |fire| ==> fire[j].id == n + j && StageRight(g, packets, cells, a, fire[j])
  }

  ghost predicate ReadyRight(g: Graph, cells: seq<Cell>, a: nat, k: int, q: seq<seq<nat>>)
    requires WellFormed(g) && a < |g.actors| && k >= 0
  {
    forall m :: 0 <= m < |q| ==> DepsRight(g, cells, a, k + m, q[m])
  }

  ghost predicate Faithful(g: Graph, packets: seq<int>, s: State)
    requires Sized(g, s)
  {
    && CellsRight(g, packets, s.cells)
    && (forall e :: 0 <= e < |s.fifos| ==> EdgeRight(g, s, e))
    && (forall a :: 0 <= a < |g.actors| ==> ActorRight(g, packets, s, a))
  }

  // ----------------------------------------------------------------- frames

  // Cells are only added; counts may change.
  ghost predicate Grown(before: seq<Cell>, after: seq<Cell>) {
    && |before| <= |after|
    && (forall d :: 0 <= d < |before| ==> after[d].origin == before[d].origin && after[d].val == before[d].val)
  }

  lemma StageGrows(g: Graph, packets: seq<int>, before: seq<Cell>, after: seq<Cell>, a: nat, f: Firing)
    requires WellFormed(g) && a < |g.actors| && Grown(before, after) && StageRight(g, packets, before, a, f)
    ensures StageRight(g, packets, after, a, f)
  {
  }

  lemma EdgeGrows(g: Graph, s: State, t: State, e: nat)
    requires WellFormed(g) && Shaped(g, s) && Shaped(g, t) && e < |s.fifos|
    requires t.fifos[e] == s.fifos[e] && Grown(s.cells, t.cells) && EdgeRight(g, s, e)
    ensures EdgeRight(g, t, e)
  {
    forall k | 0 <= k < t.fifos[e].wptr
      ensures TokenRight(g, t, e, k)
    {
      assert TokenRight(g, s, e, k);
    }
  }

  // One firing changes its stage; FIFOs and ready entries stay.
  lemma RestageFaithful(g: Graph, packets: seq<int>, s: State, t: State, a: nat, k: nat)
    requires Sized(g, s) && Sized(g, t) && Faithful(g, packets, s) && a < |s.fire| && k < |s.fire[a]|
    requires t.fifos == s.fifos && t.ready == s.ready && t.fired == s.fired && |t.fire[a]| == |s.fire[a]|
    requires t.fire == s.fire[a := s.fire[a][k := t.fire[a][k]]] && t.fire[a][k].id == s.fire[a][k].id
    requires Grown(s.cells, t.cells) && CellsRight(g, packets, t.cells)
    requires StageRight(g, packets, t.cells, a, t.fire[a][k])
    ensures Faithful(g, packets, t)
  {
    forall e | 0 <= e < |t.fifos|
      ensures EdgeRight(g, t, e)
    {
      EdgeGrows(g, s, t, e);
    }
    forall c | 0 <= c < |g.actors|
      ensures ActorRight(g, packets, t, c)
    {
      assert ActorRight(g, packets, s, c);
      assert Emitted(g, t, c) == Emitted(g, s, c);
      hide CellsRight;
      forall j | 0 <= j < |t.fire[c]|
        ensures t.fire[c][j].id == Emitted(g, t, c) + j && StageRight(g, packets, t.cells, c, t.fire[c][j])
      {
        if !(c == a && j == k) {
          assert t.fire[c][j] == s.fire[c][j];
          StageGrows(g, packets, s.cells, t.cells, c, s.fire[c][j]);
        }
      }
    }
  }

  // ------------------------------------------------------------ making ready

  // With real tokens only, nothing is forwarded, and an entry's data are the
  // heads of all inputs in slot order.
  lemma {:induction false} HeadsAre(g: Graph, s: State, a: nat, k: nat, row: seq<nat>)
    requires WellFormed(g) && Shaped(g, s) && RowIn(s.fifos, row)
    requires forall i :: 0 <= i < |row| ==> !Empty(s.fifos[row[i]]) && s.fifos[row[i]].rptr == k && TokenRight(g, s, row[i], k)
    ensures |RealHeads(s.fifos, row)| == |row|
    ensures forall i :: 0 <= i < |row| ==> Made(s.cells, RealHeads(s.fifos, row)[i], OriginOf(g, row[i], k))
    decreases |row|
  {
    if row != [] {
      var rest := row[1..];
      assert forall i :: 0 <= i < |rest| ==> rest[i] == row[i + 1];
      HeadsAre(g, s, a, k, rest);
    }
  }

  lemma ConsumeTakes(g: Graph, packets: seq<int>, s: State, P: int, a: nat)
    requires Flow(g, s, P) && Faithful(g, packets, s) && a < |g.actors| && ActorReady(g, s, a)
    ensures !PseudoFirst(g, s, a)
    ensures Consume(g, s, a) == s.(fifos := Consume(g, s, a).fifos, ready := s.ready + [Ready(a, HeadsOf(g, s, a))])
    ensures DepsRight(g, s.cells, a, Consumed(g, s, a), HeadsOf(g, s, a))
  {
    ActorRowsIn(g, s, a);
    FlowBounds(g, s, P, a);
    var ins, k := g.actors[a].ins, Consumed(g, s, a);
    forall i | 0 <= i < |ins|
      ensures !Empty(s.fifos[ins[i]]) && s.fifos[ins[i]].rptr == k && TokenRight(g, s, ins[i], k)
    {
      assert ins[i] in ins;
      InsAreSinks(g, a, ins[i]);
      assert EdgeFlow(g, s, P, ins[i]) && EdgeRight(g, s, ins[i]);
    }
    HeadsAre(g, s, a, k, ins);
  }

  lemma ConsumeFaithful(g: Graph, packets: seq<int>, s: State, P: int, a: nat)
    requires Flow(g, s, P) && Faithful(g, packets, s) && a < |g.actors| && ActorReady(g, s, a)
    ensures Flow(g, Consume(g, s, a), P) && Faithful(g, packets, Consume(g, s, a))
  {
    var t := Consume(g, s, a);
    ConsumeKeepsFlow(g, s, P, a);
    ConsumeTakes(g, packets, s, P, a);
    hide ActorReady, CellsRight, PseudoFirst, Consume;
    forall e | 0 <= e < |t.fifos|
      ensures EdgeRight(g, t, e)
    {
      assert EdgeRight(g, s, e);
      ConsumeEdge(g, s, P, a, e);
      forall k | 0 <= k < t.fifos[e].wptr
        ensures TokenRight(g, t, e, k)
      {
        assert TokenRight(g, s, e, k);
      }
    }
    forall c | 0 <= c < |g.actors|
      ensures ActorRight(g, packets, t, c)
    {
      assert ActorRight(g, packets, s, c) && ActorFlow(g, s, c);
      ConsumeActor(g, s, P, a, c);
      AppendReadyRight(g, packets, s, t, a, c);
    }
  }

  lemma AppendReadyRight(g: Graph, packets: seq<int>, s: State, t: State, a: nat, c: nat)
    requires Sized(g, s) && Sized(g, t) && a < |g.actors| && c < |g.actors|
    requires |t.ready| == |s.ready| + 1 && t.ready == s.ready + [t.ready[|s.ready|]] && t.ready[|s.ready|].actor == a
    requires t == s.(fifos := t.fifos, ready := t.ready) && Emitted(g, t, c) == Emitted(g, s, c)
    requires ActorRight(g, packets, s, c) && ActorFlow(g, s, c)
    requires DepsRight(g, s.cells, a, Consumed(g, s, a), t.ready[|s.ready|].deps)
    ensures ActorRight(g, packets, t, c)
  {
    hide StageRight, DepsRight;
    assert t.ready[..|t.ready| - 1] == s.ready;
  }

  lemma {:induction false} SweepActorFaithful(g: Graph, packets: seq<int>, s: State, P: int, a: nat)
    requires Flow(g, s, P) && Faithful(g, packets, s) && a < |g.actors|
    ensures Faithful(g, packets, SweepActor(g, s, P, a))
    decreases P - Consumed(g, s, a)
  {
    FlowBounds(g, s, P, a);
    if FireCheck(g, s, a) {
      ConsumeFaithful(g, packets, s, P, a);
      ConsumeActor(g, s, P, a, a);
      hide Flow, Faithful, ActorReady, FireCheck;
      SweepActorFaithful(g, packets, Consume(g, s, a), P, a);
    }
  }

  lemma {:induction false} SweepFaithful(g: Graph, packets: seq<int>, s: State, P: int, a: nat)
    requires Flow(g, s, P) && Faithful(g, packets, s) && a <= |g.actors|
    ensures Faithful(g, packets, SweepFrom(g, s, P, a))
    decreases |g.actors| - a
  {
    if a < |g.actors| {
      hide Flow, Faithful;
      SweepActorFaithful(g, packets, s, P, a);
      SweepFaithful(g, packets, SweepActor(g, s, P, a), P, a + 1);
    }
  }

  // ------------------------------------------------------------- each event

  // The block gets the oldest ready entry of the actor it is given, so firings
  // keep the order of the tokens they took.
  lemma HandOutFaithful(g: Graph, packets: seq<int>, s: State, P: int)
    requires Inv(g, s, P) && Faithful(g, packets, s) && s.idle != [] && s.ready != []
    ensures s.idle[0] < |s.blocks| && Sized(g, HandOut(s)) && Faithful(g, packets, HandOut(s))
  {
    HandOutKeepsInv(g, s, P);
    var t := HandOut(s);
    var r := Select(s.ready, s.blocks[s.idle[0]].actor);
    var a := s.ready[r].actor;
    hide Inv, CellsRight;
    forall e | 0 <= e < |t.fifos|
      ensures EdgeRight(g, t, e)
    {
      assert EdgeRight(g, s, e);
      EdgeGrows(g, s, t, e);
    }
    forall c | 0 <= c < |g.actors|
      ensures ActorRight(g, packets, t, c)
    {
      assert ActorRight(g, packets, s, c);
      ReadyOfRemove(s.ready, r, c);
      HandOutActorRight(g, packets, s, t, r, c);
    }
  }

  lemma AppendFiringRight(g: Graph, packets: seq<int>, cells: seq<Cell>, c: nat, n: int, fire: seq<Firing>, f: Firing)
    requires WellFormed(g) && c < |g.actors| && FireRight(g, packets, cells, c, n, fire)
    requires f.id == n + |fire| && StageRight(g, packets, cells, c, f)
    ensures FireRight(g, packets, cells, c, n, fire + [f])
  {
    hide StageRight;
    var more := fire + [f];
    forall j | 0 <= j < |more|
      ensures more[j].id == n + j && StageRight(g, packets, cells, c, more[j])
    {
      if j < |fire| { assert more[j] == fire[j]; }
    }
  }

  lemma OldestEntryTaken(g: Graph, cells: seq<Cell>, c: nat, k: int, deps: seq<nat>, rest: seq<seq<nat>>)
    requires WellFormed(g) && c < |g.actors| && k >= 0 && ReadyRight(g, cells, c, k, [deps] + rest)
    ensures DepsRight(g, cells, c, k, deps) && ReadyRight(g, cells, c, k + 1, rest)
  {
    hide DepsRight;
    var q := [deps] + rest;
    assert q[0] == deps && DepsRight(g, cells, c, k + 0, q[0]);
    forall m | 0 <= m < |rest|
      ensures DepsRight(g, cells, c, k + 1 + m, rest[m])
    {
      assert q[m + 1] == rest[m] && DepsRight(g, cells, c, k + (m + 1), q[m + 1]);
    }
  }

  lemma HandOutActorRight(g: Graph, packets: seq<int>, s: State, t: State, r: nat, c: nat)
    requires Sized(g, s) && Sized(g, t) && r < |s.ready| && s.ready[r].actor < |g.actors| && c < |g.actors|
    requires t.fifos == s.fifos && t.cells == s.cells && s.idle != []
    requires
      var a := s.ready[r].actor;
      var f := Firing(s.fired[a], s.idle[0], Loading(s.ready[r].deps));
      t.fired == s.fired[a := s.fired[a] + 1] && t.fire == s.fire[a := s.fire[a] + [f]]
    requires ReadyOf(s.ready, c) == (if s.ready[r].actor == c then [s.ready[r].deps] else []) + ReadyOf(t.ready, c)
    requires ActorRight(g, packets, s, c)
    ensures ActorRight(g, packets, t, c)
  {
    var a, deps := s.ready[r].actor, s.ready[r].deps;
    var f := Firing(s.fired[a], s.idle[0], Loading(deps));
    assert t.fire[c] == (if c == a then s.fire[c] + [f] else s.fire[c]);
    assert t.fired[c] == (if c == a then s.fired[c] + 1 else s.fired[c]);
    SameEmitted(g, s, t, c);
    var n, rest := Emitted(g, s, c), ReadyOf(t.ready, c);
    hide DepsRight, ReadyOf, Sized, HasEnds, Emitted, FireRight, ReadyRight, WellFormed, Shaped, StageRight;
    if c == a {
      EntryFires(g, packets, s.cells, c, n, s.fire[c], deps, rest, f);
    } else {
      assert [] + rest == rest;
    }
  }

  // The oldest entry becomes the youngest firing.
  lemma EntryFires(
    g: Graph, packets: seq<int>, cells: seq<Cell>, c: nat, n: int, fire: seq<Firing>, deps: seq<nat>, rest: seq<seq<nat>>, f: Firing)
    requires WellFormed(g) && c < |g.actors| && n >= 0 && f.id == n + |fire| && f.stage == Loading(deps)
    requires FireRight(g, packets, cells, c, n, fire) && ReadyRight(g, cells, c, n + |fire|, [deps] + rest)
    ensures FireRight(g, packets, cells, c, n, fire + [f]) && ReadyRight(g, cells, c, n + |fire + [f]|, rest)
  {
    hide WellFormed, DepsRight, FireRight, ReadyRight;
    OldestEntryTaken(g, cells, c, n + |fire|, deps, rest);
    AppendFiringRight(g, packets, cells, c, n, fire, f);
  }

  lemma SameEmitted(g: Graph, s: State, t: State, c: nat)
    requires Sized(g, s) && Sized(g, t) && c < |g.actors| && t.fifos == s.fifos
    ensures Emitted(g, t, c) == Emitted(g, s, c)
  {
  }

  // What a load delivers is what the graph says.
  lemma {:induction false} ValuesAt(cells: seq<Cell>, deps: seq<nat>, i: nat)
    requires i < |deps|
    ensures Values(cells, deps)[i] == if deps[i] < |cells| then cells[deps[i]].val else 0
    decreases |deps|
  {
    if i < |deps| - 1 { ValuesAt(cells, deps[..|deps| - 1], i); }
  }

  lemma LoadsRefArgs(g: Graph, packets: seq<int>, cells: seq<Cell>, a: nat, k: nat, deps: seq<nat>)
    requires WellFormed(g) && a < |g.actors| && CellsRight(g, packets, cells) && DepsRight(g, cells, a, k, deps)
    ensures Values(cells, deps) == RefArgs(g, packets, a, k)
  {
    forall i | 0 <= i < |deps|
      ensures Values(cells, deps)[i] == RefArgs(g, packets, a, k)[i]
    {
      ValuesAt(cells, deps, i);
      assert CellRight(g, packets, cells[deps[i]]);
    }
  }

  lemma {:induction false} RecycleGrows(cells: seq<Cell>, deps: seq<nat>)
    ensures Grown(cells, Recycle(cells, deps))
    decreases |deps|
  {
    if deps != [] { RecycleGrows(RecycleOne(cells, deps[|deps| - 1]), deps[..|deps| - 1]); }
  }

  lemma GrownRight(g: Graph, packets: seq<int>, cells: seq<Cell>, more: seq<Cell>)
    requires WellFormed(g) && CellsRight(g, packets, cells) && Grown(cells, more) && |more| == |cells|
    ensures CellsRight(g, packets, more)
  {
    forall d | 0 <= d < |more|
      ensures CellRight(g, packets, more[d])
    {
      assert CellRight(g, packets, cells[d]);
    }
  }

  lemma LoadedFaithful(g: Graph, packets: seq<int>, s: State, P: int, b: nat)
    requires Inv(g, s, P) && Faithful(g, packets, s)
    requires b < |s.blocks| && BlockOk(s, b) && s.blocks[b].inflight && StageOf(s, b).Loading?
    ensures Sized(g, Loaded(s, b)) && Faithful(g, packets, Loaded(s, b))
  {
    var a := s.blocks[b].actor;
    var k := FiringOf(s.fire[a], b);
    var f := s.fire[a][k];
    var t := Loaded(s, b);
    LoadedKeepsInv(g, s, P, b);
    assert ActorRight(g, packets, s, a) && StageRight(g, packets, s.cells, a, f);
    LoadsRefArgs(g, packets, s.cells, a, f.id, f.stage.deps);
    RecycleGrows(s.cells, f.stage.deps);
    GrownRight(g, packets, s.cells, t.cells);
    hide Inv, Faithful, CellsRight, Values, Recycle;
    RestageFaithful(g, packets, s, t, a, k);
  }

  lemma ComputedFaithful(g: Graph, packets: seq<int>, s: State, P: int, b: nat, ret: nat)
    requires Inv(g, s, P) && Faithful(g, packets, s)
    requires b < |s.blocks| && BlockOk(s, b) && s.blocks[b].inflight && StageOf(s, b).Running?
    requires ret >= |g.actors[s.blocks[b].actor].outs|
    ensures Sized(g, Computed(g, s, b, ret)) && Faithful(g, packets, Computed(g, s, b, ret))
  {
    var a := s.blocks[b].actor;
    var k := FiringOf(s.fire[a], b);
    var f := s.fire[a][k];
    var t := Computed(g, s, b, ret);
    ComputedKeepsInv(g, s, P, b, ret);
    assert ActorRight(g, packets, s, a) && StageRight(g, packets, s.cells, a, f);
    var n := |g.actors[a].outs|;
    forall d | 0 <= d < |t.cells|
      ensures CellRight(g, packets, t.cells[d])
    {
      if d < |s.cells| { assert t.cells[d] == s.cells[d] && CellRight(g, packets, s.cells[d]); }
    }
    assert t.fire[a][k].stage.results == seq(n, i => |s.cells| + i);
    hide Inv, Faithful, RefArgs;
    RestageFaithful(g, packets, s, t, a, k);
  }

  lemma ArriveFaithful(g: Graph, packets: seq<int>, s: State, P: int, b: nat)
    requires Inv(g, s, P) && Faithful(g, packets, s)
    requires b < |s.blocks| && BlockOk(s, b) && s.blocks[b].inflight && StageOf(s, b).Returning?
    ensures Sized(g, Arrive(s, b)) && Faithful(g, packets, Arrive(s, b))
  {
    var a := s.blocks[b].actor;
    var k := FiringOf(s.fire[a], b);
    ArriveFlow(g, s, P, b);
    assert ActorRight(g, packets, s, a) && StageRight(g, packets, s.cells, a, s.fire[a][k]);
    hide Inv, Faithful;
    RestageFaithful(g, packets, s, Arrive(s, b), a, k);
  }

  // Results go out in firing order, so token k of every out-edge is firing k's.
  lemma ReleaseEdgeRight(g: Graph, packets: seq<int>, s: State, P: int, a: nat, e: nat)
    requires Flow(g, s, P) && a < |g.actors| && MayRelease(s, a) && e < |s.fifos|
    requires EdgeRight(g, s, e) && ActorRight(g, packets, s, a)
    ensures EdgeRight(g, Release(g, s, a), e)
  {
    var t := Release(g, s, a);
    ReleaseEdge(g, s, P, a, e);
    InsAreSinks(g, a, e);
    assert StageRight(g, packets, s.cells, a, s.fire[a][0]);
    hide Flow, Release;
    forall k | 0 <= k < t.fifos[e].wptr
      ensures TokenRight(g, t, e, k)
    {
      if k < s.fifos[e].wptr { assert TokenRight(g, s, e, k); }
    }
  }

  lemma ReleaseActorRight(g: Graph, packets: seq<int>, s: State, P: int, a: nat, c: nat)
    requires Flow(g, s, P) && a < |g.actors| && MayRelease(s, a) && c < |g.actors|
    requires ActorRight(g, packets, s, c)
    ensures Sized(g, Release(g, s, a)) && ActorRight(g, packets, Release(g, s, a), c)
  {
    var t := Release(g, s, a);
    ReleaseActor(g, s, P, a, c);
    hide Flow, StageRight, DepsRight;
    assert t.cells == s.cells && t.fired == s.fired && t.ready == s.ready;
    forall j | 0 <= j < |t.fire[c]|
      ensures t.fire[c][j].id == Emitted(g, t, c) + j && StageRight(g, packets, t.cells, c, t.fire[c][j])
    {
      assert t.fire[c][j] == s.fire[c][if c == a then j + 1 else j];
    }
  }

  lemma ReleaseFaithful(g: Graph, packets: seq<int>, s: State, P: int, a: nat)
    requires Flow(g, s, P) && Faithful(g, packets, s) && a < |g.actors| && MayRelease(s, a)
    ensures Flow(g, Release(g, s, a), P) && Faithful(g, packets, Release(g, s, a))
  {
    ReleaseFlow(g, s, P, a);
    var t := Release(g, s, a);
    assert ActorRight(g, packets, s, a) && t.cells == s.cells;
    hide Flow, EdgeRight, ActorRight, Release, CellsRight;
    forall e | 0 <= e < |t.fifos|
      ensures EdgeRight(g, t, e)
    {
      ReleaseEdgeRight(g, packets, s, P, a, e);
    }
    forall c | 0 <= c < |g.actors|
      ensures ActorRight(g, packets, t, c)
    {
      ReleaseActorRight(g, packets, s, P, a, c);
    }
  }

  lemma {:induction false} ReleaseAllFaithful(g: Graph, packets: seq<int>, s: State, P: int, a: nat)
    requires Flow(g, s, P) && Faithful(g, packets, s) && a < |g.actors|
    ensures Flow(g, ReleaseAll(g, s, a), P) && Faithful(g, packets, ReleaseAll(g, s, a))
    decreases |s.fire[a]|
  {
    if MayRelease(s, a) {
      ReleaseFaithful(g, packets, s, P, a);
      hide Flow, Faithful;
      ReleaseAllFaithful(g, packets, Release(g, s, a), P, a);
    }
  }

  lemma ResultDoneFaithful(g: Graph, packets: seq<int>, s: State, P: int, b: nat)
    requires Inv(g, s, P) && Faithful(g, packets, s)
    requires b < |s.blocks| && BlockOk(s, b) && s.blocks[b].inflight && StageOf(s, b).Returning?
    ensures Sized(g, ResultDone(g, s, P, b)) && Faithful(g, packets, ResultDone(g, s, P, b))
  {
    ArriveFaithful(g, packets, s, P, b);
    DeliverKeeps(g, s, P, b);
    var a := s.blocks[b].actor;
    hide Flow, Faithful;
    ReleaseAllFaithful(g, packets, Arrive(s, b), P, a);
    SweepFaithful(g, packets, ReleaseAll(g, Arrive(s, b), a), P, 0);
  }

  // -------------------------------------------------------------------- runs

  // In a static graph a task returns all of its results.
  ghost predicate FullReturn(g: Graph, s: State, ev: Event) {
    ev.Interrupt? && ev.block < |s.blocks| && s.blocks[ev.block].inflight && 0 <= s.blocks[ev.block].actor < |g.actors| ==>
      ev.ret >= |g.actors[s.blocks[ev.block].actor].outs|
  }

  ghost predicate StaticRun(g: Graph, P: int, ss: seq<State>, evs: seq<Event>) {
    Run(g, P, ss, evs) && forall k :: 0 <= k < |evs| ==> FullReturn(g, ss[k], evs[k])
  }

  lemma NextFaithful(g: Graph, packets: seq<int>, s: State, P: int, ev: Event)
    requires Inv(g, s, P) && Faithful(g, packets, s) && Enabled(s, ev) && FullReturn(g, s, ev)
    ensures Sized(g, Next(g, s, P, ev)) && Faithful(g, packets, Next(g, s, P, ev))
  {
    assert Sized(g, s);
    hide Flow, Quiet, Faithful;
    NextKeepsInv(g, s, P, ev);
    match ev
    case Interrupt(b, ret) =>
      assert BlockOk(s, b);
      if s.blocks[b].inflight {
        ComputedFaithful(g, packets, s, P, b, ret);
      } else {
        ReportIdleFaithful(g, packets, s, b);
      }
    case Check =>
      HandOutFaithful(g, packets, s, P);
    case TransferDone(b) =>
      assert BlockOk(s, b);
      ResultFlag(g, s, b);
      if s.blocks[b].result { ResultDoneFaithful(g, packets, s, P, b); } else { LoadedFaithful(g, packets, s, P, b); }
  }

  lemma ReportIdleFaithful(g: Graph, packets: seq<int>, s: State, b: nat)
    requires Sized(g, s) && Faithful(g, packets, s) && b < |s.blocks|
    ensures Sized(g, ReportIdle(s, b)) && Faithful(g, packets, ReportIdle(s, b))
  {
    var t := ReportIdle(s, b);
    SizesMatch(g, t);
    forall e | 0 <= e < |t.fifos|
      ensures EdgeRight(g, t, e)
    {
      EdgeGrows(g, s, t, e);
    }
    forall a | 0 <= a < |g.actors|
      ensures ActorRight(g, packets, t, a)
    {
      assert ActorRight(g, packets, s, a);
    }
  }

  lemma InjectedFaithful(g: Graph, fs: seq<Fifo<Token>>, blocks: nat, packets: seq<int>)
    requires WellFormed(g) && FreshFifos(g, fs)
    ensures Sized(g, Inject(Created(g, fs, blocks), packets)) && Faithful(g, packets, Inject(Created(g, fs, blocks), packets))
  {
    var s := Inject(Created(g, fs, blocks), packets);
    hide *;
    PacketsIn(g, fs, blocks, packets);
    PacketsInFaithful(g, s, packets);
  }

  // Nothing has happened but the packets going in.
  ghost predicate OnlyPackets(g: Graph, s: State, packets: seq<int>) {
    && Shaped(g, s) && OnlyInput(s) && |s.cells| <= |packets| && s.fifos[0].wptr == |s.cells|
    && (forall k :: 0 <= k < |s.cells| ==> PacketIn(s, packets, k))
    && s.ready == [] && (forall a :: 0 <= a < |s.fire| ==> s.fire[a] == [] && s.fired[a] == 0)
  }

  predicate PacketIn(s: State, packets: seq<int>, k: nat) {
    && |s.fifos| > 0 && k < |s.fifos[0].cells| && k < |s.cells| && k < |packets|
    && s.fifos[0].cells[k] == Real(k) && s.cells[k] == Cell(packets[k], 1, false, Packet(k))
  }

  lemma PacketsIn(g: Graph, fs: seq<Fifo<Token>>, blocks: nat, packets: seq<int>)
    requires WellFormed(g) && FreshFifos(g, fs)
    ensures OnlyPackets(g, Inject(Created(g, fs, blocks), packets), packets)
  {
    hide Inject;
    InjectKeepsEight(Created(g, fs, blocks), packets, []);
    assert [] + packets == packets;
  }

  lemma PacketsInFaithful(g: Graph, s: State, packets: seq<int>)
    requires WellFormed(g) && OnlyPackets(g, s, packets)
    ensures Sized(g, s) && Faithful(g, packets, s)
  {
    SizesMatch(g, s);
    hide WellFormed, Sized, EdgeRight, ActorRight, CellRight;
    forall d | 0 <= d < |s.cells|
      ensures CellRight(g, packets, s.cells[d])
    {
      assert PacketIn(s, packets, d);
      PacketIsRight(g, packets, s.cells[d], d);
    }
    forall e | 0 <= e < |s.fifos|
      ensures EdgeRight(g, s, e)
    {
      FreshTokens(g, s, packets, e);
    }
    forall a | 0 <= a < |g.actors|
      ensures ActorRight(g, packets, s, a)
    {
      FreshActor(g, s, a);
      NothingFired(g, packets, s, a);
    }
  }

  lemma PacketIsRight(g: Graph, packets: seq<int>, c: Cell, k: nat)
    requires WellFormed(g) && k < |packets| && c == Cell(packets[k], 1, false, Packet(k))
    ensures CellRight(g, packets, c)
  {
  }

  lemma NothingFired(g: Graph, packets: seq<int>, s: State, a: nat)
    requires Sized(g, s) && a < |g.actors| && Emitted(g, s, a) == 0
    requires s.ready == [] && s.fire[a] == [] && s.fired[a] == 0
    ensures ActorRight(g, packets, s, a)
  {
    hide WellFormed, Sized, HasEnds;
  }

  lemma FreshTokens(g: Graph, s: State, packets: seq<int>, e: nat)
    requires WellFormed(g) && OnlyPackets(g, s, packets) && e < |s.fifos|
    ensures EdgeRight(g, s, e)
  {
    assert g.src[e] < 0 <==> e == 0;
    forall k | 0 <= k < s.fifos[e].wptr
      ensures TokenRight(g, s, e, k)
    {
      assert PacketIn(s, packets, k);
    }
  }

  lemma StartFaithful(g: Graph, fs: seq<Fifo<Token>>, blocks: nat, packets: seq<int>)
    requires WellFormed(g) && FreshFifos(g, fs)
    ensures Sized(g, Start(g, fs, blocks, packets)) && Faithful(g, packets, Start(g, fs, blocks, packets))
  {
    var s, P := Inject(Created(g, fs, blocks), packets), Accepted(packets);
    InjectedFlow(g, fs, blocks, packets);
    InjectedFaithful(g, fs, blocks, packets);
    SweepFaithful(g, packets, s, P, 0);
  }

  lemma StaticRunInv(
    g: Graph, fs: seq<Fifo<Token>>, blocks: nat, packets: seq<int>, ss: seq<State>, evs: seq<Event>, k: nat)
    requires WellFormed(g) && FreshFifos(g, fs) && k < |ss|
    requires StaticRun(g, Accepted(packets), ss, evs) && ss[0] == Start(g, fs, blocks, packets)
    ensures Inv(g, ss[k], Accepted(packets)) && Sized(g, ss[k])
  {
    StartInv(g, fs, blocks, packets);
    RunKeepsInv(g, Accepted(packets), ss, evs, k);
  }

  lemma {:induction false} RunFaithful(
    g: Graph, fs: seq<Fifo<Token>>, blocks: nat, packets: seq<int>, ss: seq<State>, evs: seq<Event>, k: nat)
    requires WellFormed(g) && FreshFifos(g, fs) && k < |ss|
    requires StaticRun(g, Accepted(packets), ss, evs) && ss[0] == Start(g, fs, blocks, packets)
    ensures Inv(g, ss[k], Accepted(packets)) && Faithful(g, packets, ss[k])
  {
    StaticRunInv(g, fs, blocks, packets, ss, evs, k);
    hide Inv, Faithful, Next, Enabled, WellFormed, FreshFifos, Sized, FullReturn, Start;
    if k == 0 {
      StartFaithful(g, fs, blocks, packets);
    } else {
      RunFaithful(g, fs, blocks, packets, ss, evs, k - 1);
      NextFaithful(g, packets, ss[k - 1], Accepted(packets), evs[k - 1]);
      assert ss[k - 1 + 1] == Next(g, ss[k - 1], Accepted(packets), evs[k - 1]);
    }
  }

  // What the k-th token ever put into edge e points at.
  ghost function TokenValue(s: State, e: nat, k: nat): int
    requires e < |s.fifos| && k < |s.fifos[e].cells|
  {
    var t := s.fifos[e].cells[k];
    if t.Real? && t.data < |s.cells| then s.cells[t.data].val else 0
  }

  // The graph and the packets alone decide what every edge carries.
  lemma EdgesCarryReference(
    g: Graph, fs: seq<Fifo<Token>>, blocks: nat, packets: seq<int>, ss: seq<State>, evs: seq<Event>, n: nat, e: nat, k: nat)
    requires WellFormed(g) && FreshFifos(g, fs) && n < |ss| && e < |g.src|
    requires StaticRun(g, Accepted(packets), ss, evs) && ss[0] == Start(g, fs, blocks, packets)
    requires |ss[n].fifos| == |g.src| && k < ss[n].fifos[e].wptr
    ensures k < |ss[n].fifos[e].cells| && ss[n].fifos[e].cells[k].Real?
    ensures TokenValue(ss[n], e, k) == RefEdge(g, packets, e, k)
  {
    RunFaithful(g, fs, blocks, packets, ss, evs, n);
    var s := ss[n];
    assert EdgeRight(g, s, e) && TokenRight(g, s, e, k);
    var d := s.fifos[e].cells[k].data;
    assert CellRight(g, packets, s.cells[d]);
  }

  // Two runs on the same packets, with any numbers of blocks and any orders of
  // events, agree on every token that both have produced.
  lemma RunsAgree(
    g: Graph, packets: seq<int>, fs: seq<Fifo<Token>>, blocks: nat, ss: seq<State>, evs: seq<Event>, n: nat,
    fs': seq<Fifo<Token>>, blocks': nat, ss': seq<State>, evs': seq<Event>, n': nat, e: nat, k: nat)
    requires WellFormed(g) && FreshFifos(g, fs) && FreshFifos(g, fs') && n < |ss| && n' < |ss'| && e < |g.src|
    requires StaticRun(g, Accepted(packets), ss, evs) && ss[0] == Start(g, fs, blocks, packets)
    requires StaticRun(g, Accepted(packets), ss', evs') && ss'[0] == Start(g, fs', blocks', packets)
    requires |ss[n].fifos| == |ss'[n'].fifos| == |g.src| && k < ss[n].fifos[e].wptr && k < ss'[n'].fifos[e].wptr
    ensures k < |ss[n].fifos[e].cells| && k < |ss'[n'].fifos[e].cells|
    ensures TokenValue(ss[n], e, k) == TokenValue(ss'[n'], e, k)
  {
    EdgesCarryReference(g, fs, blocks, packets, ss, evs, n, e, k);
    EdgesCarryReference(g, fs', blocks', packets, ss', evs', n', e, k);
  }

  // A run that cannot go on has computed the whole graph on every packet.
  lemma FinishedRunComputesGraph(
    g: Graph, fs: seq<Fifo<Token>>, blocks: nat, packets: seq<int>, ss: seq<State>, evs: seq<Event>, e: nat, k: nat)
    requires WellFormed(g) && FreshFifos(g, fs) && blocks > 0 && e < |g.src| && k < Accepted(packets)
    requires StaticRun(g, Accepted(packets), ss, evs) && ss[0] == Start(g, fs, blocks, packets)
    requires (forall b :: 0 <= b < |ss[|evs|].blocks| ==> BlockOk(ss[|evs|], b)) && Stuck(ss[|evs|])
    ensures
      var s := ss[|evs|];
      e < |s.fifos| && k < |s.fifos[e].cells| && s.fifos[e].cells[k].Real? && TokenValue(s, e, k) == RefEdge(g, packets, e, k)
  {
    EveryRunCompletes(g, fs, blocks, packets, ss, evs);
    RunFaithful(g, fs, blocks, packets, ss, evs, |evs|);
    EdgesCarryReference(g, fs, blocks, packets, ss, evs, |evs|, e, k);
  }
}
