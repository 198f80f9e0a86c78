// Every event keeps the scheduler's invariants.
module SchedulerInvariants {
  import opened TokenFifo
  import opened Dataflow
  import opened TokenFlow
  import opened SchedulerSteps

  // ------------------------------------------------------------- fire lists

  lemma FiringIsUnique(fire: seq<Firing>, b: nat, k: nat)
    requires FireListOk(fire) && k < |fire| && Matches(fire[k], b)
    ensures FiringOf(fire, b) == k
  {
  }

  // Ids, blocks and being in flight are all that matters for a fire list.
  ghost predicate SameShape(fire: seq<Firing>, other: seq<Firing>) {
    && |fire| == |other|
    && forall k :: 0 <= k < |fire| ==>
         fire[k].id == other[k].id && fire[k].block == other[k].block && InFlight(fire[k]) == InFlight(other[k])
  }

  lemma SameShapeSameList(fire: seq<Firing>, other: seq<Firing>, b: nat, id: nat)
    requires SameShape(fire, other) && FireListOk(fire)
    ensures FireListOk(other)
    ensures FiringOf(other, b) == FiringOf(fire, b)
    ensures LingersIn(other, id) <==> LingersIn(fire, id)
  {
    assert FireListOk(other);
    SameLingers(fire, other, id);
    hide LingersIn;
    var k := FiringOf(fire, b);
    if k < |fire| { FiringIsUnique(other, b, k); }
  }

  lemma SameLingers(fire: seq<Firing>, other: seq<Firing>, id: nat)
    requires SameShape(fire, other)
    ensures LingersIn(other, id) <==> LingersIn(fire, id)
  {
    if LingersIn(fire, id) {
      var k :| 0 <= k < |fire| && fire[k].id == id && !InFlight(fire[k]);
      assert other[k].id == id && !InFlight(other[k]);
    }
    if LingersIn(other, id) {
      var k :| 0 <= k < |other| && other[k].id == id && !InFlight(other[k]);
      assert fire[k].id == id && !InFlight(fire[k]);
    }
  }

  lemma AppendFiring(fire: seq<Firing>, f: Firing, b: nat, id: nat)
    requires FireListOk(fire) && InFlight(f)
    requires forall k :: 0 <= k < |fire| ==> fire[k].id < f.id && !Matches(fire[k], f.block)
    ensures FireListOk(fire + [f])
    ensures FiringOf(fire + [f], f.block) == |fire|
    ensures FiringOf(fire, b) < |fire| ==> FiringOf(fire + [f], b) == FiringOf(fire, b)
    ensures LingersIn(fire + [f], id) <==> LingersIn(fire, id)
  {
    var s := fire + [f];
    assert FireListOk(s);
    hide FireListOk, LingersIn;
    FiringIsUnique(s, f.block, |fire|);
    var k := FiringOf(fire, b);
    if k < |fire| { assert s[k] == fire[k]; FiringIsUnique(s, b, k); }
    LingersAppend(fire, f, id);
  }

  lemma LingersAppend(fire: seq<Firing>, f: Firing, id: nat)
    requires InFlight(f)
    ensures LingersIn(fire + [f], id) <==> LingersIn(fire, id)
  {
    var s := fire + [f];
    if LingersIn(fire, id) {
      var k :| 0 <= k < |fire| && fire[k].id == id && !InFlight(fire[k]);
      assert s[k] == fire[k];
    }
    if LingersIn(s, id) {
      var k :| 0 <= k < |s| && s[k].id == id && !InFlight(s[k]);
      assert s[k] == fire[k];
    }
  }

  // The firing at k stops occupying its block.
  lemma LandFiring(fire: seq<Firing>, k: nat, f: Firing, b: nat, id: nat)
    requires FireListOk(fire) && k < |fire| && InFlight(fire[k])
    requires !InFlight(f) && f.id == fire[k].id && f.block == fire[k].block
    ensures FireListOk(fire[k := f])
    ensures b != f.block ==> FiringOf(fire[k := f], b) == FiringOf(fire, b)
    ensures LingersIn(fire[k := f], id) <==> LingersIn(fire, id) || id == f.id
    ensures LingersIn(fire, id) ==> id != f.id
  {
    var s := fire[k := f];
    assert FireListOk(s);
    LingersLand(fire, k, f, id);
    hide FireListOk, LingersIn;
    var j := FiringOf(fire, b);
    if b != f.block && j < |fire| { assert s[j] == fire[j]; FiringIsUnique(s, b, j); }
  }

  lemma LingersLand(fire: seq<Firing>, k: nat, f: Firing, id: nat)
    requires FireListOk(fire) && k < |fire| && InFlight(fire[k])
    requires !InFlight(f) && f.id == fire[k].id
    ensures LingersIn(fire[k := f], id) <==> LingersIn(fire, id) || id == f.id
    ensures LingersIn(fire, id) ==> id != f.id
  {
    var s := fire[k := f];
    if LingersIn(fire, id) {
      var j :| 0 <= j < |fire| && fire[j].id == id && !InFlight(fire[j]);
      assert s[j] == fire[j];
    }
    if LingersIn(s, id) && id != f.id {
      var j :| 0 <= j < |s| && s[j].id == id && !InFlight(s[j]);
      assert s[j] == fire[j];
    }
    assert s[k] == f;
  }

  lemma DropFiring(fire: seq<Firing>, b: nat, id: nat)
    requires FireListOk(fire) && fire != [] && !InFlight(fire[0])
    ensures FireListOk(fire[1..])
    ensures FiringOf(fire, b) == 1 + FiringOf(fire[1..], b)
    ensures LingersIn(fire[1..], id) <==> LingersIn(fire, id) && id != fire[0].id
    ensures LingersIn(fire, fire[0].id)
  {
    var s := fire[1..];
    assert forall k :: 0 <= k < |s| ==> s[k] == fire[k + 1];
    if LingersIn(s, id) {
      var k :| 0 <= k < |s| && s[k].id == id && !InFlight(s[k]);
      assert fire[k + 1].id == id && !InFlight(fire[k + 1]);
    }
    if LingersIn(fire, id) && id != fire[0].id {
      var k :| 0 <= k < |fire| && fire[k].id == id && !InFlight(fire[k]);
      assert s[k - 1] == fire[k];
    }
  }

  lemma {:induction false} MinusMembers(ids: seq<nat>, id: nat)
    requires forall i, j :: 0 <= i < j < |ids| ==> ids[i] != ids[j]
    ensures forall i, j :: 0 <= i < j < |Minus(ids, id)| ==> Minus(ids, id)[i] != Minus(ids, id)[j]
    ensures forall x :: x in Minus(ids, id) <==> x in ids && x != id
  {
    if ids != [] {
      var rest := ids[1..];
      assert forall i :: 0 <= i < |rest| ==> rest[i] == ids[i + 1];
      assert ids[0] !in rest;
      assert forall x :: x in ids <==> x == ids[0] || x in rest;
      if ids[0] != id { MinusMembers(rest, id); }
    }
  }

  // ---------------------------------------------------------------- counting

  lemma {:induction false} ReadyOfSplit(x: seq<Ready>, y: seq<Ready>, a: nat)
    ensures ReadyOf(x + y, a) == ReadyOf(x, a) + ReadyOf(y, a)
    decreases |y|
  {
    if y == [] {
      assert x + y == x;
    } else {
      var z := y[..|y| - 1];
      assert (x + y)[..|x + y| - 1] == x + z;
      ReadyOfSplit(x, z, a);
    }
  }

  // Taking the oldest entry of its actor out of the ready list.
  lemma ReadyOfRemove(ready: seq<Ready>, r: nat, a: nat)
    requires r < |ready| && forall i :: 0 <= i < r ==> ready[i].actor != ready[r].actor
    ensures
      ReadyOf(ready, a) == (if ready[r].actor == a then [ready[r].deps] else []) + ReadyOf(RemoveAt(ready, r), a)
    ensures forall x :: x in RemoveAt(ready, r) ==> x in ready
  {
    var x, y, z := ready[..r], [ready[r]], ready[r + 1..];
    ThreeParts(ready, r);
    OneReadyOf(ready[r], a);
    if ready[r].actor == a { NoneReady(x, a); }
    hide ReadyOf, RemoveAt;
    ReadyOfSplit(x, y + z, a);
    ReadyOfSplit(y, z, a);
    ReadyOfSplit(x, z, a);
  }

  lemma ThreeParts(ready: seq<Ready>, r: nat)
    requires r < |ready|
    ensures
      var x, y, z := ready[..r], [ready[r]], ready[r + 1..];
      ready == x + (y + z) && RemoveAt(ready, r) == x + z
    ensures forall e :: e in RemoveAt(ready, r) ==> e in ready
  {
  }

  lemma OneReadyOf(r: Ready, a: nat)
    ensures ReadyOf([r], a) == if r.actor == a then [r.deps] else []
  {
    assert [r][..0] == [];
  }

  lemma {:induction false} NoneReady(x: seq<Ready>, a: nat)
    requires forall i :: 0 <= i < |x| ==> x[i].actor != a
    ensures ReadyOf(x, a) == []
    decreases |x|
  {
    if x != [] { NoneReady(x[..|x| - 1], a); }
  }

  // Events that move no token and no list keep the counts.
  lemma SameFlow(g: Graph, s: State, t: State, P: int)
    requires Flow(g, s, P) && Shaped(g, t)
    requires t.fifos == s.fifos && t.ready == s.ready && forall a :: 0 <= a < |s.fire| ==> |t.fire[a]| == |s.fire[a]|
    ensures Flow(g, t, P)
    ensures Quiet(g, s, P, |g.actors|) ==> Quiet(g, t, P, |g.actors|)
  {
    SizesMatch(g, t);
    forall e | 0 <= e < |t.fifos|
      ensures EdgeFlow(g, t, P, e)
    {
      assert EdgeFlow(g, s, P, e);
    }
    forall a | 0 <= a < |g.actors|
      ensures ActorFlow(g, t, a)
    {
      assert ActorFlow(g, s, a);
    }
    if Quiet(g, s, P, |g.actors|) {
      forall a | 0 <= a < |g.actors|
        ensures !ActorReady(g, t, a)
      {
        assert !ActorReady(g, s, a);
      }
    }
  }

  lemma HandOutFlow(g: Graph, s: State, P: int)
    requires Flow(g, s, P) && s.idle != [] && s.ready != [] && s.idle[0] < |s.blocks|
    ensures Flow(g, HandOut(s), P)
    ensures Quiet(g, s, P, |g.actors|) ==> Quiet(g, HandOut(s), P, |g.actors|)
  {
    var t := HandOut(s);
    var r := Select(s.ready, s.blocks[s.idle[0]].actor);
    SizesMatch(g, t);
    forall e | 0 <= e < |t.fifos|
      ensures EdgeFlow(g, t, P, e)
    {
      assert EdgeFlow(g, s, P, e);
    }
    forall a | 0 <= a < |g.actors|
      ensures ActorFlow(g, t, a)
    {
      assert ActorFlow(g, s, a);
      ReadyOfRemove(s.ready, r, a);
    }
    ReadyOfRemove(s.ready, r, 0);
    if Quiet(g, s, P, |g.actors|) {
      forall a | 0 <= a < |g.actors|
        ensures !ActorReady(g, t, a)
      {
        assert !ActorReady(g, s, a);
      }
    }
  }

  // What passing on a result does to one edge.
  lemma ReleaseEdge(g: Graph, s: State, P: int, a: nat, e: nat)
    requires Flow(g, s, P) && a < |g.actors| && MayRelease(s, a) && e < |s.fifos|
    ensures
      var f, f' := s.fifos[e], Release(g, s, a).fifos[e];
      var t := TokenFor(s.fire[a][0].stage.results, RowOf(g.actors[a].outs, e));
      && f' == (if g.src[e] == a then Fifo(f.cells[f.wptr := t], f.wptr + 1, f.rptr) else f)
      && (g.src[e] == a ==> f.wptr < P && f.wptr == Emitted(g, s, a))
  {
    ActorRowsIn(g, s, a);
    InsAreSinks(g, a, e);
    PutResultsAt(s.fifos, g.actors[a].outs, s.fire[a][0].stage.results, e);
    FlowBounds(g, s, P, a);
    assert ActorFlow(g, s, a) && EdgeFlow(g, s, P, e);
    if g.src[e] == a {
      PutStep(s.fifos[e], TokenFor(s.fire[a][0].stage.results, RowOf(g.actors[a].outs, e)), P);
    }
  }

  lemma ReleaseActor(g: Graph, s: State, P: int, a: nat, b: nat)
    requires Flow(g, s, P) && a < |g.actors| && MayRelease(s, a) && b < |g.actors|
    ensures
      var t := Release(g, s, a);
      && Sized(g, t)
      && Consumed(g, t, b) == Consumed(g, s, b)
      && Emitted(g, t, b) == Emitted(g, s, b) + (if b == a then 1 else 0)
      && |t.fire[b]| == |s.fire[b]| - (if b == a then 1 else 0)
  {
    SizesMatch(g, Release(g, s, a));
    assert HasEnds(g, s, b) && WellFormedActor(g, b) && MadeBy(g, g.actors[b].outs[0], b);
    assert g.actors[b].ins[0] in g.actors[b].ins && g.actors[b].outs[0][0] in g.actors[b].outs[0];
    ReleaseEdge(g, s, P, a, g.actors[b].ins[0]);
    ReleaseEdge(g, s, P, a, g.actors[b].outs[0][0]);
  }

  lemma ReleaseFlow(g: Graph, s: State, P: int, a: nat)
    requires Flow(g, s, P) && a < |g.actors| && MayRelease(s, a)
    ensures Flow(g, Release(g, s, a), P)
  {
    hide MayRelease;
    var t := Release(g, s, a);
    ReleaseActor(g, s, P, a, a);
    forall b | 0 <= b < |g.actors|
      ensures ActorFlow(g, t, b)
    {
      assert ActorFlow(g, s, b);
      ReleaseActor(g, s, P, a, b);
    }
    forall e | 0 <= e < |t.fifos|
      ensures EdgeFlow(g, t, P, e)
    {
      assert EdgeFlow(g, s, P, e);
      ReleaseEdge(g, s, P, a, e);
      if g.src[e] >= 0 { ReleaseActor(g, s, P, a, g.src[e]); }
      if g.snk[e] >= 0 { ReleaseActor(g, s, P, a, g.snk[e]); }
    }
  }

  // ------------------------------------------------------------------ blocks

  lemma HandOutBlocks(g: Graph, s: State, P: int)
    requires Flow(g, s, P) && BlocksOk(g, s) && s.idle != [] && s.ready != []
    ensures s.idle[0] < |s.blocks| && BlocksOk(g, HandOut(s))
  {
    var b := s.idle[0];
    assert b in s.idle && BlockOk(s, b);
    var r := Select(s.ready, s.blocks[b].actor);
    var a := s.ready[r].actor;
    var t := HandOut(s);
    var f := t.fire[a][|s.fire[a]|];
    assert ActorBlocks(s, a);
    forall k | 0 <= k < |s.fire[a]|
      ensures s.fire[a][k].id < f.id && !Matches(s.fire[a][k], b)
    {
      assert FiringOk(s, a, k);
    }
    forall c | 0 <= c < |t.fire|
      ensures ActorBlocks(t, c) && LingerOk(t, c)
    {
      HandOutActor(s, c, b, a, f);
    }
    forall x | 0 <= x < |t.blocks|
      ensures BlockOk(t, x)
    {
      assert BlockOk(s, x);
      AppendFiring(s.fire[a], f, x, 0);
    }
    HandOutIdle(s);
  }

  lemma HandOutIdle(s: State)
    requires IdleOk(s) && s.idle != [] && s.ready != [] && s.idle[0] < |s.blocks|
    requires |s.fire| == |s.fired| && forall i :: 0 <= i < |s.ready| ==> s.ready[i].actor < |s.fire|
    ensures IdleOk(HandOut(s))
  {
    var t := HandOut(s);
    assert forall i :: 0 <= i < |t.idle| ==> t.idle[i] == s.idle[i + 1];
    assert forall b :: b in s.idle <==> b == s.idle[0] || b in t.idle;
  }

  lemma HandOutActor(s: State, c: nat, b: nat, a: nat, f: Firing)
    requires s.idle != [] && s.ready != [] && s.idle[0] == b < |s.blocks| && !s.blocks[b].inflight && !s.blocks[b].result
    requires |s.fire| == |s.fired| == |s.linger| && c < |s.fire| && a < |s.fire|
    requires forall i :: 0 <= i < |s.ready| ==> s.ready[i].actor < |s.fire|
    requires HandOut(s).fire == s.fire[a := s.fire[a] + [f]] && a == s.ready[Select(s.ready, s.blocks[b].actor)].actor
    requires f == Firing(s.fired[a], b, f.stage) && f.stage.Loading?
    requires ActorBlocks(s, c) && LingerOk(s, c)
    requires forall k :: 0 <= k < |s.fire[a]| ==> s.fire[a][k].id < f.id && !Matches(s.fire[a][k], b)
    ensures ActorBlocks(HandOut(s), c) && LingerOk(HandOut(s), c)
  {
    var t := HandOut(s);
    forall k | 0 <= k < |t.fire[c]|
      ensures FiringOk(t, c, k)
    {
      if k < |s.fire[c]| { assert FiringOk(s, c, k) && t.fire[c][k] == s.fire[c][k]; }
    }
    if c == a {
      AppendFiring(s.fire[a], f, 0, 0);
      forall id
        ensures id in t.linger[a] <==> LingersIn(t.fire[a], id)
      {
        AppendFiring(s.fire[a], f, 0, id);
      }
    }
  }

  // A firing moves to its next stage in flight; its block's result flag follows.
  lemma RestageBlocks(g: Graph, s: State, t: State, a: nat, k: nat)
    requires BlocksOk(g, s) && a < |s.fire| && k < |s.fire[a]| && InFlight(s.fire[a][k])
    requires |t.fire| == |s.fire| && |t.fire[a]| == |s.fire[a]|
    requires
      var f, f' := s.fire[a][k], t.fire[a][k];
      && InFlight(f') && f'.id == f.id && f'.block == f.block < |s.blocks|
      && t.fire == s.fire[a := s.fire[a][k := f']]
      && t.blocks == s.blocks[f.block := s.blocks[f.block].(result := f'.stage.Returning?)]
    requires t.idle == s.idle && t.linger == s.linger && t.fired == s.fired && t.fifos == s.fifos
    ensures BlocksOk(g, t)
  {
    var b := s.fire[a][k].block;
    assert ActorBlocks(s, a) && LingerOk(s, a) && FiringOk(s, a, k) && BlockOk(s, b);
    assert SameShape(s.fire[a], t.fire[a]);
    FiringIsUnique(s.fire[a], b, k);
    forall c | 0 <= c < |t.fire|
      ensures ActorBlocks(t, c) && LingerOk(t, c)
    {
      assert ActorBlocks(s, c) && LingerOk(s, c);
      SameShapeSameList(s.fire[a], t.fire[a], 0, 0);
      RestageActor(s, t, a, k, c);
      forall id
        ensures id in t.linger[c] <==> LingersIn(t.fire[c], id)
      {
        SameShapeSameList(s.fire[a], t.fire[a], 0, id);
      }
    }
    forall x | 0 <= x < |t.blocks|
      ensures BlockOk(t, x)
    {
      assert BlockOk(s, x);
      SameShapeSameList(s.fire[a], t.fire[a], x, 0);
    }
  }

  lemma RestageActor(s: State, t: State, a: nat, k: nat, c: nat)
    requires |s.fire| == |s.fired| && a < |s.fire| && k < |s.fire[a]| && InFlight(s.fire[a][k]) && c < |s.fire|
    requires ActorBlocks(s, a) && ActorBlocks(s, c) && |t.fire| == |s.fire| && |t.fire[a]| == |s.fire[a]|
    requires
      var f, f' := s.fire[a][k], t.fire[a][k];
      && InFlight(f') && f'.id == f.id && f'.block == f.block < |s.blocks|
      && t.fire == s.fire[a := s.fire[a][k := f']]
      && t.blocks == s.blocks[f.block := s.blocks[f.block].(result := f'.stage.Returning?)]
    requires t.fired == s.fired
    ensures forall j :: 0 <= j < |t.fire[c]| ==> FiringOk(t, c, j)
  {
    assert FiringOk(s, a, k);
    forall j | 0 <= j < |t.fire[c]|
      ensures FiringOk(t, c, j)
    {
      assert FiringOk(s, c, j);
    }
  }

  lemma ReportIdleBlocks(g: Graph, s: State, b: nat)
    requires BlocksOk(g, s) && b < |s.blocks| && !s.blocks[b].inflight && !s.blocks[b].infifo
    ensures BlocksOk(g, ReportIdle(s, b))
  {
    var t := ReportIdle(s, b);
    forall c | 0 <= c < |t.fire|
      ensures ActorBlocks(t, c) && LingerOk(t, c)
    {
      assert ActorBlocks(s, c) && LingerOk(s, c);
      forall j | 0 <= j < |t.fire[c]|
        ensures FiringOk(t, c, j)
      {
        assert FiringOk(s, c, j);
      }
    }
    forall x | 0 <= x < |t.blocks|
      ensures BlockOk(t, x)
    {
      assert BlockOk(s, x);
    }
    assert b !in s.idle;
    assert forall x :: x in t.idle <==> x in s.idle || x == b;
  }

  // A result arrives: its firing waits, its block is nobody's.
  lemma ArriveBlocks(g: Graph, s: State, b: nat)
    requires BlocksOk(g, s) && b < |s.blocks| && BlockOk(s, b) && s.blocks[b].inflight && StageOf(s, b).Returning?
    ensures BlocksOk(g, Arrive(s, b))
    ensures forall c :: 0 <= c < |s.fire| && c != s.blocks[b].actor ==> Arrive(s, b).fire[c] == s.fire[c]
  {
    var a := s.blocks[b].actor;
    var k := FiringOf(s.fire[a], b);
    var t := Arrive(s, b);
    var f := t.fire[a][k];
    assert ActorBlocks(s, a) && LingerOk(s, a);
    forall c | 0 <= c < |t.fire|
      ensures ActorBlocks(t, c)
    {
      assert ActorBlocks(s, c);
      LandFiring(s.fire[a], k, f, 0, 0);
      ArriveActor(s, b, a, k, c);
    }
    forall c | 0 <= c < |t.fire|
      ensures LingerOk(t, c)
    {
      assert LingerOk(s, c);
      if c == a { ArriveLinger(s, b, a, k); }
    }
    forall x | 0 <= x < |t.blocks|
      ensures BlockOk(t, x)
    {
      assert BlockOk(s, x);
      LandFiring(s.fire[a], k, f, x, 0);
    }
    ArriveIdle(s, b);
  }

  lemma ArriveIdle(s: State, b: nat)
    requires IdleOk(s) && b < |s.blocks| && BlockOk(s, b) && s.blocks[b].inflight && StageOf(s, b).Returning?
    requires |s.linger| == |s.fire|
    ensures IdleOk(Arrive(s, b))
  {
  }

  lemma ArriveActor(s: State, b: nat, a: nat, k: nat, c: nat)
    requires b < |s.blocks| && BlockOk(s, b) && s.blocks[b].inflight && StageOf(s, b).Returning?
    requires |s.fired| == |s.linger| == |s.fire| && a == s.blocks[b].actor && k == FiringOf(s.fire[a], b) && c < |s.fire|
    requires ActorBlocks(s, a) && ActorBlocks(s, c)
    ensures forall j :: 0 <= j < |Arrive(s, b).fire[c]| ==> FiringOk(Arrive(s, b), c, j)
  {
    var t := Arrive(s, b);
    forall j | 0 <= j < |t.fire[c]|
      ensures FiringOk(t, c, j)
    {
      assert FiringOk(s, c, j);
      if c == a && j != k && Matches(s.fire[c][j], b) { FiringIsUnique(s.fire[c], b, j); }
    }
  }

  lemma ArriveLinger(s: State, b: nat, a: nat, k: nat)
    requires b < |s.blocks| && BlockOk(s, b) && s.blocks[b].inflight && StageOf(s, b).Returning?
    requires |s.linger| == |s.fire| && a == s.blocks[b].actor && k == FiringOf(s.fire[a], b)
    requires FireListOk(s.fire[a]) && LingerOk(s, a)
    ensures LingerOk(Arrive(s, b), a)
  {
    var t := Arrive(s, b);
    var f := t.fire[a][k];
    var before, after := s.linger[a], t.linger[a];
    assert forall i :: 1 <= i < |after| ==> after[i] == before[i - 1];
    assert forall id :: id in after <==> id == f.id || id in before;
    forall id
      ensures id in after <==> LingersIn(t.fire[a], id)
    {
      LandFiring(s.fire[a], k, f, 0, id);
    }
    LandFiring(s.fire[a], k, f, 0, f.id);
    assert f.id !in before;
    forall i, j | 0 <= i < j < |after|
      ensures after[i] != after[j]
    {
      if i == 0 { assert after[j] in before; }
    }
  }

  lemma ReleaseBlocks(g: Graph, s: State, a: nat)
    requires WellFormed(g) && BlocksOk(g, s) && a < |g.actors| && MayRelease(s, a)
    ensures BlocksOk(g, Release(g, s, a))
  {
    var t := Release(g, s, a);
    assert ActorBlocks(s, a) && LingerOk(s, a);
    DropFiring(s.fire[a], 0, 0);
    forall c | 0 <= c < |t.fire|
      ensures ActorBlocks(t, c) && LingerOk(t, c)
    {
      assert ActorBlocks(s, c) && LingerOk(s, c);
      forall j | 0 <= j < |t.fire[c]|
        ensures FiringOk(t, c, j)
      {
        assert FiringOk(s, c, if c == a then j + 1 else j);
      }
      if c == a { ReleaseLinger(g, s, a); }
    }
    forall x | 0 <= x < |t.blocks|
      ensures BlockOk(t, x)
    {
      assert BlockOk(s, x);
      DropFiring(s.fire[a], x, 0);
    }
  }

  lemma ReleaseLinger(g: Graph, s: State, a: nat)
    requires WellFormed(g) && Shaped(g, s) && a < |g.actors| && MayRelease(s, a)
    requires FireListOk(s.fire[a]) && LingerOk(s, a)
    ensures LingerOk(Release(g, s, a), a)
  {
    var t := Release(g, s, a);
    MinusMembers(s.linger[a], s.fire[a][0].id);
    forall id
      ensures id in t.linger[a] <==> LingersIn(t.fire[a], id)
    {
      DropFiring(s.fire[a], 0, id);
    }
  }
}
