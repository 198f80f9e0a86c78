// Counting tokens: what every reachable state conserves, why no FIFO ever
// fills, and why one sweep over the actors finds every ready one.
module TokenFlow {
  import opened TokenFifo
  import opened Dataflow

  // How often actor a has taken tokens, and how often it has passed some on.
  function Consumed(g: Graph, s: State, a: nat): int
    requires HasEnds(g, s, a)
  {
    s.fifos[g.actors[a].ins[0]].rptr
  }

  function Emitted(g: Graph, s: State, a: nat): int
    requires HasEnds(g, s, a)
  {
    s.fifos[g.actors[a].outs[0][0]].wptr
  }

  // The entries of one actor in the ready list, oldest first.
  function ReadyOf(ready: seq<Ready>, a: nat): seq<seq<nat>> {
    if ready == [] then []
    else ReadyOf(ready[..|ready| - 1], a) + (if ready[|ready| - 1].actor == a then [ready[|ready| - 1].deps] else [])
  }

  // The graph and the state have matching sizes everywhere Consumed and
  // Emitted look.
  ghost predicate Sized(g: Graph, s: State) {
    WellFormed(g) && Shaped(g, s) && forall a :: 0 <= a < |g.actors| ==> HasEnds(g, s, a)
  }

  ghost predicate HasEnds(g: Graph, s: State, a: nat) {
    && a < |g.actors|
    && g.actors[a].ins != [] && g.actors[a].ins[0] < |s.fifos|
    && g.actors[a].outs != [] && g.actors[a].outs[0] != [] && g.actors[a].outs[0][0] < |s.fifos|
  }

  lemma SizesMatch(g: Graph, s: State)
    requires WellFormed(g) && Shaped(g, s)
    ensures Sized(g, s)
  {
    forall a | 0 <= a < |g.actors|
      ensures HasEnds(g, s, a)
    {
      assert WellFormedActor(g, a);
      assert MadeBy(g, g.actors[a].outs[0], a);
      assert g.actors[a].ins[0] in g.actors[a].ins && g.actors[a].outs[0][0] in g.actors[a].outs[0];
    }
  }

  // Edge e has carried between 0 and P tokens; all inputs of an actor have lost
  // equally many, all its outputs received equally many.
  ghost predicate EdgeFlow(g: Graph, s: State, P: int, e: nat)
    requires Sized(g, s) && e < |s.fifos|
  {
    var f := s.fifos[e];
    && 0 <= f.rptr <= f.wptr <= P
    && f.wptr == (if g.src[e] < 0 then P else Emitted(g, s, g.src[e]))
    && f.rptr == (if g.snk[e] < 0 then 0 else Consumed(g, s, g.snk[e]))
  }

  // Conservation for one actor: what it took is ready, being fired, or passed on.
  ghost predicate ActorFlow(g: Graph, s: State, a: nat)
    requires Sized(g, s) && a < |g.actors|
  {
    Consumed(g, s, a) == Emitted(g, s, a) + |ReadyOf(s.ready, a)| + |s.fire[a]|
  }

  // P packets were put in; at most eight fit.
  ghost predicate Flow(g: Graph, s: State, P: int) {
    && Sized(g, s) && 0 <= P <= 8
    && (forall e :: 0 <= e < |s.fifos| ==> EdgeFlow(g, s, P, e))
    && (forall a :: 0 <= a < |g.actors| ==> ActorFlow(g, s, a))
    && (forall i :: 0 <= i < |s.ready| ==> s.ready[i].actor < |g.actors|)
  }

  // ----------------------------------------------------------- what follows

  // An actor never runs ahead of its inputs, and its outputs never pass P.
  lemma FlowBounds(g: Graph, s: State, P: int, a: nat)
    requires Flow(g, s, P) && a < |g.actors|
    ensures 0 <= Emitted(g, s, a) <= Consumed(g, s, a) <= P
    ensures ActorReady(g, s, a) <==> forall e :: e in g.actors[a].ins ==> e < |s.fifos| && s.fifos[e].wptr > Consumed(g, s, a)
    ensures ActorReady(g, s, a) ==> Consumed(g, s, a) < P
  {
    assert ActorFlow(g, s, a) && WellFormedActor(g, a) && HasEnds(g, s, a);
    var e0, o0 := g.actors[a].ins[0], g.actors[a].outs[0][0];
    assert EdgeFlow(g, s, P, e0) && e0 in g.actors[a].ins;
    assert MadeBy(g, g.actors[a].outs[0], a) && o0 in g.actors[a].outs[0];
    assert EdgeFlow(g, s, P, o0);
    forall e | e in g.actors[a].ins
      ensures e < |s.fifos| && s.fifos[e].rptr == Consumed(g, s, a) && s.fifos[e].rptr <= s.fifos[e].wptr
    {
      assert EdgeFlow(g, s, P, e);
    }
  }

  // No FIFO ever wraps: fifo_size is exact and its cells hold every token that
  // was ever put into it.
  lemma NoFifoWraps(g: Graph, s: State, P: int, e: nat)
    requires Flow(g, s, P) && e < |s.fifos|
    ensures Unwrapped(s.fifos[e]) && Size(s.fifos[e]) == |Contents(s.fifos[e])| <= 8
    ensures Contents(s.fifos[e]) == s.fifos[e].cells[s.fifos[e].rptr..s.fifos[e].wptr]
  {
    assert EdgeFlow(g, s, P, e);
    SizeIsExact(s.fifos[e]);
  }

  // A full successor never holds back a ready actor.
  lemma SuccessorsNeverBlock(g: Graph, s: State, P: int, a: nat)
    requires Flow(g, s, P) && a < |g.actors|
    ensures FireCheck(g, s, a) <==> ActorReady(g, s, a)
  {
    FlowBounds(g, s, P, a);
    assert HasEnds(g, s, a) && WellFormedActor(g, a) && MadeBy(g, g.actors[a].outs[0], a);
    var o := g.actors[a].outs[0][0];
    assert o in g.actors[a].outs[0];
    assert EdgeFlow(g, s, P, o);
    if ActorReady(g, s, a) {
      assert s.fifos[o].wptr < 8;
      assert !Full(s.fifos[o]);
    }
  }

  // ------------------------------------------------------------ making ready

  lemma DropStep(f: Fifo<Token>, P: int)
    requires InRange(f) && 0 <= f.rptr < f.wptr <= P <= 8
    ensures Drop(f) == Fifo(f.cells, f.wptr, f.rptr + 1)
  {
  }

  lemma PutStep(f: Fifo<Token>, t: Token, P: int)
    requires InRange(f) && 0 <= f.rptr <= f.wptr < P <= 8
    ensures Put(f, t) == Fifo(f.cells[f.wptr := t], f.wptr + 1, f.rptr)
  {
  }

  // What Consume does to one edge, pointer by pointer.
  lemma ConsumeEdge(g: Graph, s: State, P: int, a: nat, e: nat)
    requires Flow(g, s, P) && a < |g.actors| && ActorReady(g, s, a) && e < |s.fifos|
    ensures
      var f, f' := s.fifos[e], Consume(g, s, a).fifos[e];
      && f'.rptr == f.rptr + (if g.snk[e] == a then 1 else 0)
      && f'.wptr == f.wptr + (if PseudoFirst(g, s, a) && g.src[e] == a then 1 else 0)
      && (g.snk[e] == a ==> f.rptr < f.wptr)
      && f'.cells == (if PseudoFirst(g, s, a) && g.src[e] == a then f.cells[f.wptr := Pseudo] else f.cells)
  {
    ConsumeFifos(g, s, a, e);
    FlowBounds(g, s, P, a);
    InsAreSinks(g, a, e);
    assert EdgeFlow(g, s, P, e);
    hide Put, Drop;
    if g.snk[e] == a { DropStep(s.fifos[e], P); }
    if PseudoFirst(g, s, a) && g.src[e] == a { PutStep(s.fifos[e], Pseudo, P); }
  }

  lemma ConsumeActor(g: Graph, s: State, P: int, a: nat, b: nat)
    requires Flow(g, s, P) && a < |g.actors| && ActorReady(g, s, a) && b < |g.actors|
    ensures
      var t := Consume(g, s, a);
      && Sized(g, t)
      && Consumed(g, t, b) == Consumed(g, s, b) + (if b == a then 1 else 0)
      && Emitted(g, t, b) == Emitted(g, s, b) + (if PseudoFirst(g, s, a) && b == a then 1 else 0)
      && |ReadyOf(t.ready, b)| == |ReadyOf(s.ready, b)| + (if !PseudoFirst(g, s, a) && b == a then 1 else 0)
      && t.fire == s.fire
  {
    SizesMatch(g, Consume(g, s, a));
    assert HasEnds(g, s, b) && WellFormedActor(g, b) && MadeBy(g, g.actors[b].outs[0], b);
    assert g.actors[b].ins[0] in g.actors[b].ins && g.actors[b].outs[0][0] in g.actors[b].outs[0];
    ConsumeEdge(g, s, P, a, g.actors[b].ins[0]);
    ConsumeEdge(g, s, P, a, g.actors[b].outs[0][0]);
  }

  // Taking one firing's tokens keeps every count in step.
  lemma ConsumeKeepsFlow(g: Graph, s: State, P: int, a: nat)
    requires Flow(g, s, P) && a < |g.actors| && ActorReady(g, s, a)
    ensures Flow(g, Consume(g, s, a), P)
  {
    hide FireCheck, ActorReady;
    var t := Consume(g, s, a);
    ConsumeActor(g, s, P, a, a);
    FlowBounds(g, s, P, a);
    forall b | 0 <= b < |g.actors|
      ensures ActorFlow(g, t, b)
    {
      assert ActorFlow(g, s, b);
      ConsumeActor(g, s, P, a, b);
    }
    forall e | 0 <= e < |t.fifos|
      ensures EdgeFlow(g, t, P, e)
    {
      assert EdgeFlow(g, s, P, e);
      ConsumeEdge(g, s, P, a, e);
      if g.src[e] >= 0 { ConsumeActor(g, s, P, a, g.src[e]); }
      if g.snk[e] >= 0 { ConsumeActor(g, s, P, a, g.snk[e]); }
    }
  }

  // What the inner loop of ready_search does for one actor.  It stops because
  // every turn takes a token from the actor's first input.
  ghost function SweepActor(g: Graph, s: State, P: int, a: nat): (t: State)
    requires Flow(g, s, P) && a < |g.actors|
    ensures Flow(g, t, P)
    decreases P - Consumed(g, s, a)
  {
    FlowBounds(g, s, P, a);
    if FireCheck(g, s, a) then
      ConsumeKeepsFlow(g, s, P, a);
      ConsumeActor(g, s, P, a, a);
      SweepActor(g, Consume(g, s, a), P, a)
    else s
  }

  // ready_search from actor a to the last one created.
  ghost function SweepFrom(g: Graph, s: State, P: int, a: nat): (t: State)
    requires Flow(g, s, P) && a <= |g.actors|
    ensures Flow(g, t, P)
    decreases |g.actors| - a
  {
    if a == |g.actors| then s else SweepFrom(g, SweepActor(g, s, P, a), P, a + 1)
  }

  ghost function Sweep(g: Graph, s: State, P: int): (t: State)
    requires Flow(g, s, P)
    ensures Flow(g, t, P)
  {
    SweepFrom(g, s, P, 0)
  }

  // What one turn for actor a leaves alone.
  ghost predicate TouchesOnly(g: Graph, s: State, t: State, P: int, a: nat)
    requires Flow(g, s, P) && Flow(g, t, P) && a < |g.actors|
  {
    && t == s.(fifos := t.fifos, ready := t.ready)
    && (forall e :: 0 <= e < |s.fifos| && g.snk[e] != a && g.src[e] != a ==> t.fifos[e] == s.fifos[e])
    && (forall b :: 0 <= b < |g.actors| && b != a ==> SameCounts(g, s, t, b))
  }

  ghost predicate SameCounts(g: Graph, s: State, t: State, b: nat)
    requires Sized(g, s) && Sized(g, t) && b < |g.actors|
  {
    Consumed(g, t, b) == Consumed(g, s, b) && Emitted(g, t, b) == Emitted(g, s, b) && ReadyOf(t.ready, b) == ReadyOf(s.ready, b)
  }

  lemma ConsumeTouchesOnly(g: Graph, s: State, P: int, a: nat)
    requires Flow(g, s, P) && a < |g.actors| && ActorReady(g, s, a)
    ensures Flow(g, Consume(g, s, a), P) && TouchesOnly(g, s, Consume(g, s, a), P, a)
  {
    ConsumeKeepsFlow(g, s, P, a);
    var t := Consume(g, s, a);
    forall e | 0 <= e < |s.fifos| && g.snk[e] != a && g.src[e] != a
      ensures t.fifos[e] == s.fifos[e]
    {
      ConsumeFifos(g, s, a, e);
    }
    forall b | 0 <= b < |g.actors| && b != a
      ensures SameCounts(g, s, t, b)
    {
      ConsumeActor(g, s, P, a, b);
    }
  }

  lemma {:induction false} SweepActorTouchesOnly(g: Graph, s: State, P: int, a: nat)
    requires Flow(g, s, P) && a < |g.actors|
    ensures TouchesOnly(g, s, SweepActor(g, s, P, a), P, a)
    ensures !ActorReady(g, SweepActor(g, s, P, a), a)
    decreases P - Consumed(g, s, a)
  {
    FlowBounds(g, s, P, a);
    SuccessorsNeverBlock(g, s, P, a);
    if ActorReady(g, s, a) {
      hide FireCheck, ActorReady, Flow;
      ConsumeTouchesOnly(g, s, P, a);
      ConsumeActor(g, s, P, a, a);
      var u := Consume(g, s, a);
      SweepActorTouchesOnly(g, u, P, a);
      TouchesTwice(g, s, u, SweepActor(g, u, P, a), P, a);
    } else {
      assert forall b :: 0 <= b < |g.actors| ==> SameCounts(g, s, s, b);
    }
  }

  lemma TouchesTwice(g: Graph, s: State, u: State, t: State, P: int, a: nat)
    requires Flow(g, s, P) && Flow(g, u, P) && Flow(g, t, P) && a < |g.actors|
    requires TouchesOnly(g, s, u, P, a) && TouchesOnly(g, u, t, P, a)
    ensures TouchesOnly(g, s, t, P, a)
  {
    hide EdgeFlow, ActorFlow;
    forall b | 0 <= b < |g.actors| && b != a
      ensures SameCounts(g, s, t, b)
    {
      assert SameCounts(g, s, u, b) && SameCounts(g, u, t, b);
    }
  }

  // No actor from `from` up to `a` satisfies the fire rule.
  ghost predicate Quiet(g: Graph, s: State, P: int, a: nat)
    requires Flow(g, s, P) && a <= |g.actors|
  {
    forall b :: 0 <= b < a ==> !ActorReady(g, s, b)
  }

  // A later actor's turn feeds no earlier actor.
  lemma SweepActorKeepsQuiet(g: Graph, s: State, P: int, a: nat)
    requires Flow(g, s, P) && a < |g.actors| && Quiet(g, s, P, a)
    ensures Quiet(g, SweepActor(g, s, P, a), P, a + 1)
  {
    SweepActorTouchesOnly(g, s, P, a);
    var t := SweepActor(g, s, P, a);
    forall b | 0 <= b < a
      ensures !ActorReady(g, t, b)
    {
      assert !ActorReady(g, s, b) && WellFormedActor(g, b);
      var e :| e in g.actors[b].ins && e < |s.fifos| && Empty(s.fifos[e]);
      assert g.snk[e] == b && g.src[e] < b;
      assert t.fifos[e] == s.fifos[e];
    }
  }

  lemma {:induction false} SweepFromQuiets(g: Graph, s: State, P: int, a: nat)
    requires Flow(g, s, P) && a <= |g.actors| && Quiet(g, s, P, a)
    ensures Quiet(g, SweepFrom(g, s, P, a), P, |g.actors|)
    decreases |g.actors| - a
  {
    if a < |g.actors| {
      SweepActorKeepsQuiet(g, s, P, a);
      SweepFromQuiets(g, SweepActor(g, s, P, a), P, a + 1);
    }
  }

  // One sweep in creation order is a fixpoint: afterwards no actor can fire.
  lemma SweepIsFixpoint(g: Graph, s: State, P: int)
    requires Flow(g, s, P)
    ensures Quiet(g, Sweep(g, s, P), P, |g.actors|)
    ensures forall a :: 0 <= a < |g.actors| ==> !FireCheck(g, Sweep(g, s, P), a)
  {
    SweepFromQuiets(g, s, P, 0);
  }

  lemma {:induction false} SweepKeepsRest(g: Graph, s: State, P: int, a: nat)
    requires Flow(g, s, P) && a <= |g.actors|
    ensures SweepFrom(g, s, P, a) == s.(fifos := SweepFrom(g, s, P, a).fifos, ready := SweepFrom(g, s, P, a).ready)
    decreases |g.actors| - a
  {
    if a < |g.actors| {
      SweepActorTouchesOnly(g, s, P, a);
      SweepKeepsRest(g, SweepActor(g, s, P, a), P, a + 1);
    }
  }
}
