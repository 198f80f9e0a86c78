// What each event does, spelled out: which entry and which block are chosen, how
// many results there are and where they are kept.
module SchedulerEffects {
  import opened TokenFifo
  import opened Dataflow
  import opened TokenFlow
  import opened SchedulerSteps
  import opened SchedulerInvariants
  import opened SchedulerRuns
  import Determinacy

  // ----------------------------------------------------------- ready_create

  // These are the data of the real tokens at the heads of a row, in row order:
  // entry j is that of slot slots[j], and no other slot has a real head.
  ghost predicate RealOnes(fs: seq<Fifo<Token>>, row: seq<nat>, deps: seq<nat>, slots: seq<nat>)
    requires RowIn(fs, row)
  {
    && |slots| == |deps| && (forall j, k :: 0 <= j < k < |slots| ==> slots[j] < slots[k])
    && (forall j :: 0 <= j < |slots| ==> slots[j] < |row| && fs[row[slots[j]]].cells[fs[row[slots[j]]].rptr] == Real(deps[j]))
    && (forall i :: 0 <= i < |row| && fs[row[i]].cells[fs[row[i]].rptr].Real? ==> i in slots)
  }

  lemma {:induction false} HeadsAreReal(fs: seq<Fifo<Token>>, row: seq<nat>) returns (slots: seq<nat>)
    requires RowIn(fs, row) && forall i :: 0 <= i < |row| ==> !Empty(fs[row[i]])
    ensures RealOnes(fs, row, RealHeads(fs, row), slots)
    decreases |row|
  {
    slots := [];
    if row != [] {
      var n := |row| - 1;
      slots := HeadsAreReal(fs, row[..n]);
      HeadsAppend(fs, row);
      hide RealHeads, RealOnes;
      slots := OneMoreHead(fs, row, RealHeads(fs, row[..n]), slots);
    }
  }

  lemma OneMoreHead(fs: seq<Fifo<Token>>, row: seq<nat>, deps: seq<nat>, slots: seq<nat>) returns (more: seq<nat>)
    requires RowIn(fs, row) && row != [] && !Empty(fs[row[|row| - 1]]) && RealOnes(fs, row[..|row| - 1], deps, slots)
    ensures RealOnes(fs, row, deps + DataOf(Head(fs[row[|row| - 1]])), more)
  {
    var n := |row| - 1;
    more := slots;
    if Head(fs[row[n]]).Real? {
      more := slots + [n];
      assert more[|slots|] == n && forall i :: i in slots ==> i in more;
    }
    assert forall i :: 0 <= i < n ==> row[..n][i] == row[i];
  }

  lemma {:induction false} HeadsAppend(fs: seq<Fifo<Token>>, row: seq<nat>)
    requires RowIn(fs, row) && row != [] && forall i :: 0 <= i < |row| ==> !Empty(fs[row[i]])
    ensures RealHeads(fs, row) == RealHeads(fs, row[..|row| - 1]) + DataOf(Head(fs[row[|row| - 1]]))
    decreases |row|
  {
    if |row| > 1 {
      HeadsAppend(fs, row[1..]);
      assert row[1..][..|row| - 2] == row[..|row| - 1][1..];
    }
  }

  // An actor with a token on every input gets an entry exactly if the token in
  // slot 0 is real; the entry has the data of all real tokens, in slot order.
  lemma EntryIffSlotZeroReal(g: Graph, s: State, a: nat)
    requires WellFormed(g) && Shaped(g, s) && a < |g.actors| && ActorReady(g, s, a)
    ensures g.actors[a].ins != [] && g.actors[a].ins[0] < |s.fifos| && RowIn(s.fifos, g.actors[a].ins)
    ensures
      var f, t := s.fifos[g.actors[a].ins[0]], Consume(g, s, a);
      if f.cells[f.rptr].Real? then
        |t.ready| == |s.ready| + 1 && t.ready[..|s.ready|] == s.ready && t.ready[|s.ready|].actor == a
        && exists slots :: RealOnes(s.fifos, g.actors[a].ins, t.ready[|s.ready|].deps, slots)
      else t.ready == s.ready
    ensures Consume(g, s, a) == s.(fifos := Consume(g, s, a).fifos, ready := Consume(g, s, a).ready)
  {
    ActorRowsIn(g, s, a);
    var ins := g.actors[a].ins;
    assert forall i :: 0 <= i < |ins| ==> ins[i] in ins;
    var slots := HeadsAreReal(s.fifos, ins);
    hide RealOnes;
  }

  // Entries join the ready list behind all others, those of a sweep in creation
  // order of their actors.
  ghost predicate Joined(ready: seq<Ready>, more: seq<Ready>, a: nat, past: nat) {
    && |ready| <= |more| && more[..|ready|] == ready
    && (forall i :: |ready| <= i < |more| ==> a <= more[i].actor < past)
    && (forall i, j :: |ready| <= i < j < |more| ==> more[i].actor <= more[j].actor)
  }

  lemma JoinTwice(ready: seq<Ready>, mid: seq<Ready>, more: seq<Ready>, a: nat, b: nat, c: nat, past: nat)
    requires Joined(ready, mid, a, b) && Joined(mid, more, c, past) && a <= c && b <= c + 1 && b <= past
    ensures Joined(ready, more, a, past)
  {
    forall i | 0 <= i < |mid|
      ensures more[i] == mid[i]
    {
      assert more[..|mid|][i] == mid[i];
    }
    assert more[..|ready|] == mid[..|ready|];
  }

  lemma ConsumeJoins(g: Graph, s: State, P: int, a: nat)
    requires Flow(g, s, P) && a < |g.actors| && ActorReady(g, s, a)
    ensures Joined(s.ready, Consume(g, s, a).ready, a, a + 1)
  {
    EntryIffSlotZeroReal(g, s, a);
    hide Flow, ActorReady, Consume;
  }

  lemma {:induction false} SweepActorJoins(g: Graph, s: State, P: int, a: nat)
    requires Flow(g, s, P) && a < |g.actors|
    ensures Joined(s.ready, SweepActor(g, s, P, a).ready, a, a + 1)
    decreases P - Consumed(g, s, a)
  {
    FlowBounds(g, s, P, a);
    if FireCheck(g, s, a) {
      ConsumeKeepsFlow(g, s, P, a);
      ConsumeActor(g, s, P, a, a);
      ConsumeJoins(g, s, P, a);
      hide Flow, FireCheck, ActorReady, Consume, Joined;
      var u := Consume(g, s, a);
      SweepActorJoins(g, u, P, a);
      JoinTwice(s.ready, u.ready, SweepActor(g, u, P, a).ready, a, a + 1, a, a + 1);
    }
  }

  lemma NextActor(g: Graph, s: State, P: int, a: nat)
    requires Flow(g, s, P) && a < |g.actors|
    ensures Flow(g, SweepActor(g, s, P, a), P)
    ensures SweepFrom(g, s, P, a) == SweepFrom(g, SweepActor(g, s, P, a), P, a + 1)
  {
    hide Flow, SweepActor;
  }

  lemma NoActorLeft(g: Graph, s: State, P: int)
    requires Flow(g, s, P)
    ensures Joined(s.ready, SweepFrom(g, s, P, |g.actors|).ready, |g.actors|, |g.actors|)
  {
    hide Flow, SweepActor;
  }

  lemma {:induction false} SweepJoins(g: Graph, s: State, P: int, a: nat)
    requires Flow(g, s, P) && a <= |g.actors|
    ensures Joined(s.ready, SweepFrom(g, s, P, a).ready, a, |g.actors|)
    decreases |g.actors| - a
  {
    hide *;
    if a < |g.actors| {
      var u := SweepActor(g, s, P, a);
      SweepActorJoins(g, s, P, a);
      NextActor(g, s, P, a);
      SweepJoins(g, u, P, a + 1);
      JoinTwice(s.ready, u.ready, SweepFrom(g, u, P, a + 1).ready, a, a + 1, a + 1, |g.actors|);
    } else {
      NoActorLeft(g, s, P);
    }
  }

  // ------------------------------------------------------------ actor_check

  // Entry r is the oldest of the actor that the block ran last or, if that actor
  // has none, the oldest of all.
  ghost predicate Preferred(ready: seq<Ready>, last: int, r: nat) {
    && r < |ready|
    && ((exists i :: 0 <= i < |ready| && ready[i].actor == last) ==>
          ready[r].actor == last && forall i :: 0 <= i < r ==> ready[i].actor != last)
    && ((forall i :: 0 <= i < |ready| ==> ready[i].actor != last) ==> r == 0)
  }

  lemma SelectIsPreferred(ready: seq<Ready>, last: int)
    requires ready != []
    ensures Preferred(ready, last, Select(ready, last))
  {
    var r := FirstOf(ready, last);
    if exists i :: 0 <= i < |ready| && ready[i].actor == last {
      var i :| 0 <= i < |ready| && ready[i].actor == last;
      assert r < |ready|;
    }
  }

  // The block that has been idle longest takes the entry preferred for it; that
  // entry alone leaves the ready list, and its actor's newest firing has its data.
  ghost predicate HandedOut(s: State, t: State, r: nat) {
    && s.idle != [] && s.idle[0] < |s.blocks| && Preferred(s.ready, s.blocks[s.idle[0]].actor, r)
    && var b, a := s.idle[0], s.ready[r].actor;
    && a < |s.fire| && a < |s.fired|
    && t.idle == s.idle[1..] && t.ready == s.ready[..r] + s.ready[r + 1..]
    && t.blocks == s.blocks[b := Block(true, s.blocks[b].infifo, s.blocks[b].result, a)]
    && t.fire == s.fire[a := s.fire[a] + [Firing(s.fired[a], b, Loading(s.ready[r].deps))]]
    && t.fired == s.fired[a := s.fired[a] + 1]
    && t.fifos == s.fifos && t.linger == s.linger && t.cells == s.cells
  }

  lemma CheckHandsOut(g: Graph, s: State, P: int)
    requires Inv(g, s, P) && Enabled(s, Check)
    ensures exists r :: HandedOut(s, Next(g, s, P, Check), r)
  {
    assert s.idle[0] in s.idle;
    var last := s.blocks[s.idle[0]].actor;
    SelectIsPreferred(s.ready, last);
    hide Preferred, Inv;
    assert HandedOut(s, Next(g, s, P, Check), Select(s.ready, last));
  }

  // ---------------------------------------------------------- block_handler

  // A block's report that it is idle puts it at the end of the queue.
  lemma IdleBlockQueues(g: Graph, s: State, P: int, b: nat, ret: nat)
    requires Inv(g, s, P) && b < |s.blocks| && !s.blocks[b].inflight && Enabled(s, Interrupt(b, ret))
    ensures Next(g, s, P, Interrupt(b, ret)) == s.(blocks := s.blocks[b := s.blocks[b].(infifo := true)], idle := s.idle + [b])
  {
    assert BlockOk(s, b);
  }

  // What a block in flight returns: for the first ret rows of its actor, or for
  // all if there are fewer, a new data cell with the result's value and the
  // number of FIFOs of its row.  Nothing else changes but the firing's stage.
  ghost predicate Returned(g: Graph, s: State, t: State, b: nat, ret: nat, a: nat, k: nat) {
    && a < |g.actors| == |s.fire| && k < |s.fire[a]| && b < |s.blocks|
    && var f, rows := s.fire[a][k], g.actors[a].outs;
    && s.blocks[b].actor == a && f.block == b && f.stage.Running?
    && var n := if ret < |rows| then ret else |rows|;
    && |t.cells| == |s.cells| + n && t.cells[..|s.cells|] == s.cells
    && (forall i :: 0 <= i < n ==>
          t.cells[|s.cells| + i] == Cell(g.compute(a, i, f.stage.args), |rows[i]|, false, Result(a, i, f.id)))
    && |t.fire| == |s.fire| && |t.fire[a]| == |s.fire[a]|
    && t == s.(cells := t.cells, fire := s.fire[a := s.fire[a][k := t.fire[a][k]]], blocks := s.blocks[b := s.blocks[b].(result := true)])
    && t.fire[a][k] == f.(stage := t.fire[a][k].stage) && t.fire[a][k].stage.Returning?
    && var results := t.fire[a][k].stage.results;
    && |results| == n && forall i :: 0 <= i < n ==> results[i] == |s.cells| + i
  }

  lemma InterruptReturns(g: Graph, s: State, P: int, b: nat, ret: nat)
    requires Inv(g, s, P) && b < |s.blocks| && s.blocks[b].inflight && Enabled(s, Interrupt(b, ret))
    ensures exists a, k :: Returned(g, s, Next(g, s, P, Interrupt(b, ret)), b, ret, a, k)
  {
    assert BlockOk(s, b);
    var a := s.blocks[b].actor;
    var k := FiringOf(s.fire[a], b);
    var t := Next(g, s, P, Interrupt(b, ret));
    assert t == Computed(g, s, b, ret);
    assert |s.fire| == |g.actors|;
    hide Inv, Next;
    assert Returned(g, s, t, b, ret, a, k);
  }

  // ----------------------------------------------- dma_transfer_done_handler

  // A load: the block's firing has the values its entry's data held, in order.
  lemma LoadDelivers(g: Graph, s: State, P: int, b: nat)
    requires Inv(g, s, P) && b < |s.blocks| && !s.blocks[b].result && Enabled(s, TransferDone(b))
    ensures
      var t, a := Next(g, s, P, TransferDone(b)), s.blocks[b].actor;
      exists k: nat ::
        && 0 <= a < |s.fire| == |t.fire| && k < |s.fire[a]| == |t.fire[a]| && s.fire[a][k].block == b && s.fire[a][k].stage.Loading?
        && var f, deps := t.fire[a][k], s.fire[a][k].stage.deps;
        && t == s.(cells := t.cells, fire := s.fire[a := s.fire[a][k := f]]) && f == s.fire[a][k].(stage := f.stage)
        && f.stage.Running? && |f.stage.args| == |deps|
        && forall i :: 0 <= i < |deps| && deps[i] < |s.cells| ==> f.stage.args[i] == s.cells[deps[i]].val
  {
    assert BlockOk(s, b);
    ResultFlag(g, s, b);
    var a := s.blocks[b].actor;
    var k := FiringOf(s.fire[a], b);
    var deps := s.fire[a][k].stage.deps;
    forall i | 0 <= i < |deps|
      ensures Values(s.cells, deps)[i] == if deps[i] < |s.cells| then s.cells[deps[i]].val else 0
    {
      Determinacy.ValuesAt(s.cells, deps, i);
    }
    hide Inv;
    assert Next(g, s, P, TransferDone(b)) == Loaded(s, b);
  }

  // A result: its block is free again and keeps its last actor.  Out of order the
  // result only joins the head of the linger list, under its firing's id.
  lemma ResultArrives(g: Graph, s: State, P: int, b: nat)
    requires Inv(g, s, P) && b < |s.blocks| && s.blocks[b].result && Enabled(s, TransferDone(b))
    ensures
      var t, a := Next(g, s, P, TransferDone(b)), s.blocks[b].actor;
      && 0 <= a < |s.fire| == |s.linger| && s.fire[a] != []
      && t.blocks == s.blocks[b := Block(false, false, false, a)]
      && t.idle == s.idle && t.fired == s.fired && t.cells == s.cells
      && (s.fire[a][0].block != b ==> exists k: nat ::
            && k < |s.fire[a]| && s.fire[a][k].block == b && s.fire[a][k].stage.Returning?
            && t.fifos == s.fifos && t.ready == s.ready && t.linger == s.linger[a := [s.fire[a][k].id] + s.linger[a]]
            && t.fire == s.fire[a := s.fire[a][k := s.fire[a][k].(stage := Lingering(s.fire[a][k].stage.results))]])
  {
    assert BlockOk(s, b);
    ResultFlag(g, s, b);
    var a := s.blocks[b].actor;
    if s.fire[a][0].block == b {
      DeliverKeeps(g, s, P, b);
      hide Flow, BlocksOk, ReleaseAll;
      SweepKeepsRest(g, ReleaseAll(g, Arrive(s, b), a), P, 0);
    } else {
      hide Inv;
      assert Next(g, s, P, TransferDone(b)) == Arrive(s, b);
    }
  }
}
