// Tasks that return fewer results than their actor has rows make pseudo tokens,
// which are forwarded without a firing (src/fire_check.c:118-125).  When such a
// token keeps its place in the order.
module DynamicGraphs {
  import opened TokenFifo
  import opened Dataflow
  import opened TokenFlow

  // The actor's next firing, number Consumed, gets place Consumed on edge e.
  ghost predicate KeepsPlace(g: Graph, s: State, a: nat, e: nat)
    requires Sized(g, s) && a < |g.actors| && ActorReady(g, s, a) && e < |s.fifos|
  {
    var f := Consume(g, s, a).fifos[e];
    f.wptr == Consumed(g, s, a) + 1 && 0 <= Consumed(g, s, a) < |f.cells| && f.cells[Consumed(g, s, a)] == Pseudo
  }

  // A pseudo firing keeps its place in the order on the actor's out-edges if and
  // only if no earlier firing of the actor is ready or under way; otherwise it
  // overtakes them all.
  lemma PseudoKeepsPlaceIff(g: Graph, s: State, P: int, a: nat, e: nat)
    requires Flow(g, s, P) && a < |g.actors| && ActorReady(g, s, a) && PseudoFirst(g, s, a)
    requires e < |s.fifos| && g.src[e] == a
    ensures
      var f := Consume(g, s, a).fifos[e];
      f.wptr == Emitted(g, s, a) + 1 && 0 <= Emitted(g, s, a) < |f.cells| && f.cells[Emitted(g, s, a)] == Pseudo
    ensures KeepsPlace(g, s, a, e) <==> ReadyOf(s.ready, a) == [] && s.fire[a] == []
  {
    FlowBounds(g, s, P, a);
    assert EdgeFlow(g, s, P, e) && ActorFlow(g, s, a);
    ConsumeEdge(g, s, P, a, e);
    assert g.snk[e] != a;
  }
}
