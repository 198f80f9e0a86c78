// Actors joined by token FIFOs, and the scheduler's handlers as functions on
// one state (src/fire_check.c, src/task_callback.c, dma/transfer_callback.c).
module Dataflow {
  import opened TokenFifo

  // in[] and out[][] of one actor, by edge number, up to the first NULL.
  datatype Actor = Actor(ins: seq<nat>, outs: seq<seq<nat>>)

  // The actors in creation order.  src[e] and snk[e] are the actors at the ends
  // of edge e, -1 where there is none.  compute(a, i, args) is result i of
  // actor a's task on its loaded arguments.
  datatype Graph = Graph(actors: seq<Actor>, src: seq<int>, snk: seq<int>, compute: (nat, nat, seq<int>) -> int)

  predicate InRow(rows: seq<seq<nat>>, e: nat) { exists i :: 0 <= i < |rows| && e in rows[i] }

  ghost predicate DistinctRow(row: seq<nat>) {
    forall i, j :: 0 <= i < j < |row| ==> row[i] != row[j]
  }

  // No edge occurs twice in the rows.
  ghost predicate DistinctRows(rows: seq<seq<nat>>) {
    && (forall i :: 0 <= i < |rows| ==> DistinctRow(rows[i]))
    && (forall i, j, e :: 0 <= i < j < |rows| && e in rows[i] ==> e !in rows[j])
  }

  // Every actor has an input and an output, slots are filled without gaps, an
  // edge has one producer and one consumer, actors are created before their
  // successors, and edge 0 alone, the root's input, is fed from outside.
  ghost predicate WellFormed(g: Graph) {
    && |g.src| == |g.snk| > 0 && |g.actors| > 0
    && (forall a :: 0 <= a < |g.actors| ==> WellFormedActor(g, a))
    && (forall e :: 0 <= e < |g.snk| ==>
          -1 <= g.snk[e] < |g.actors| && (g.snk[e] >= 0 ==> e in g.actors[g.snk[e]].ins))
    && (forall e :: 0 <= e < |g.src| ==>
          -1 <= g.src[e] < |g.actors| && (g.src[e] >= 0 ==> InRow(g.actors[g.src[e]].outs, e)))
    && (forall e :: 0 <= e < |g.src| ==> (g.src[e] < 0 <==> e == 0))
    && (forall e :: 0 <= e < |g.src| && g.snk[e] >= 0 ==> g.src[e] < g.snk[e])
  }

  ghost predicate WellFormedActor(g: Graph, a: nat)
    requires |g.src| == |g.snk| && a < |g.actors|
  {
    var r := g.actors[a];
    && r.ins != [] && r.outs != [] && r.outs[0] != []
    && DistinctRow(r.ins) && DistinctRows(r.outs)
    && (forall e :: e in r.ins ==> e < |g.snk| && g.snk[e] == a)
    && (forall i :: 0 <= i < |r.outs| ==> r.outs[i] != [])
    && (forall i :: 0 <= i < |r.outs| ==> MadeBy(g, r.outs[i], a))
  }

  ghost predicate MadeBy(g: Graph, row: seq<nat>, a: nat) {
    forall e :: e in row ==> e < |g.src| && g.src[e] == a
  }

  // A pseudo token or a pointer to a data cell.
  datatype Token = Pseudo | Real(data: nat)

  // What made a data cell: packet k, or result i of firing k of actor a.
  datatype Origin = Packet(k: nat) | Result(a: nat, i: nat, k: nat)

  datatype Cell = Cell(val: int, cnt: int, freed: bool, origin: Origin)

  // An entry of the ready list: the actor and its real input tokens.
  datatype Ready = Ready(actor: nat, deps: seq<nat>)

  // Where a firing is between being fired and being passed on.
  datatype Stage =
    | Loading(deps: seq<nat>)
    | Running(args: seq<int>)
    | Returning(results: seq<nat>)
    | Lingering(results: seq<nat>)

  // The id numbers an actor's firings from 0.
  datatype Firing = Firing(id: nat, block: nat, stage: Stage)

  datatype Block = Block(inflight: bool, infifo: bool, result: bool, actor: int)

  // Lists are oldest first, except linger, which is in list order: newest first.
  datatype State = State(
    fifos: seq<Fifo<Token>>, ready: seq<Ready>, fire: seq<seq<Firing>>, linger: seq<seq<nat>>, fired: seq<nat>,
    blocks: seq<Block>, idle: seq<nat>, cells: seq<Cell>)

  // The arrays match the graph and every FIFO pointer names a cell.
  ghost predicate Shaped(g: Graph, s: State) {
    && |s.fifos| == |g.src|
    && |s.fire| == |s.linger| == |s.fired| == |g.actors|
    && AllInRange(s.fifos)
  }

  ghost predicate RowIn(fs: seq<Fifo<Token>>, row: seq<nat>) {
    && AllInRange(fs)
    && (forall i :: 0 <= i < |row| ==> row[i] < |fs|)
  }

  ghost predicate AllInRange(fs: seq<Fifo<Token>>) {
    forall e :: 0 <= e < |fs| ==> InRange(fs[e])
  }

  ghost predicate RowsIn(fs: seq<Fifo<Token>>, rows: seq<seq<nat>>) {
    forall i :: 0 <= i < |rows| ==> RowIn(fs, rows[i])
  }

  // ------------------------------------------------------------ FIFO rows

  // get_token on each FIFO of a row.
  function DropRow(fs: seq<Fifo<Token>>, row: seq<nat>): (r: seq<Fifo<Token>>)
    requires RowIn(fs, row)
    ensures |r| == |fs| && AllInRange(r)
    decreases |row|
  {
    if row == [] then fs else DropRow(fs[row[0] := Drop(fs[row[0]])], row[1..])
  }

  function PutRow(fs: seq<Fifo<Token>>, row: seq<nat>, t: Token): (r: seq<Fifo<Token>>)
    requires RowIn(fs, row)
    ensures |r| == |fs| && AllInRange(r)
    decreases |row|
  {
    if row == [] then fs else PutRow(fs[row[0] := Put(fs[row[0]], t)], row[1..], t)
  }

  lemma RowsInTail(fs: seq<Fifo<Token>>, rows: seq<seq<nat>>, t: Token)
    requires RowsIn(fs, rows) && rows != []
    ensures RowIn(fs, rows[0]) && RowsIn(PutRow(fs, rows[0], t), rows[1..])
  {
    var fs1 := PutRow(fs, rows[0], t);
    forall i | 0 <= i < |rows[1..]|
      ensures RowIn(fs1, rows[1..][i])
    {
      assert RowIn(fs, rows[i + 1]);
    }
  }

  // A list that grows at its head, read from its tail: oldest first.
  function FromTail(list: seq<nat>): (r: seq<nat>)
    ensures |r| == |list|
    ensures forall i :: 0 <= i < |list| ==> r[i] == list[|list| - 1 - i]
  {
    seq(|list|, i requires 0 <= i < |list| => list[|list| - 1 - i])
  }

  // One token per result row; rows past the last token get pseudo tokens.
  function PutResults(fs: seq<Fifo<Token>>, rows: seq<seq<nat>>, toks: seq<nat>): (r: seq<Fifo<Token>>)
    requires RowsIn(fs, rows) && AllInRange(fs)
    ensures |r| == |fs| && AllInRange(r)
    decreases |rows|
  {
    if rows == [] then fs
    else
      RowsInTail(fs, rows, TokenFor(toks, 0));
      if toks == [] then PutResults(PutRow(fs, rows[0], Pseudo), rows[1..], [])
      else PutResults(PutRow(fs, rows[0], Real(toks[0])), rows[1..], toks[1..])
  }

  lemma {:induction false} DropRowAt(fs: seq<Fifo<Token>>, row: seq<nat>, e: nat)
    requires RowIn(fs, row) && DistinctRow(row) && e < |fs|
    ensures DropRow(fs, row)[e] == (if e in row then Drop(fs[e]) else fs[e])
    decreases |row|
  {
    if row != [] {
      DistinctTail(row);
      DropRowAt(fs[row[0] := Drop(fs[row[0]])], row[1..], e);
    }
  }

  lemma DistinctTail(row: seq<nat>)
    requires DistinctRow(row) && row != []
    ensures DistinctRow(row[1..]) && row[0] !in row[1..]
    ensures forall e :: e in row <==> e == row[0] || e in row[1..]
  {
    var rest := row[1..];
    assert forall i :: 0 <= i < |rest| ==> rest[i] == row[i + 1];
  }

  lemma {:induction false} PutRowAt(fs: seq<Fifo<Token>>, row: seq<nat>, t: Token, e: nat)
    requires RowIn(fs, row) && DistinctRow(row) && e < |fs|
    ensures PutRow(fs, row, t)[e] == (if e in row then Put(fs[e], t) else fs[e])
    decreases |row|
  {
    if row != [] {
      DistinctTail(row);
      PutRowAt(fs[row[0] := Put(fs[row[0]], t)], row[1..], t, e);
    }
  }

  // The first row that holds e.
  function RowOf(rows: seq<seq<nat>>, e: nat): (i: nat)
    ensures i <= |rows|
    ensures i < |rows| ==> e in rows[i]
    ensures i == |rows| ==> !InRow(rows, e)
  {
    if rows == [] then 0 else if e in rows[0] then 0
    else
      var i := RowOf(rows[1..], e);
      assert InRow(rows, e) ==> InRow(rows[1..], e) by {
        if InRow(rows, e) {
          var k :| 0 <= k < |rows| && e in rows[k];
          assert rows[1..][k - 1] == rows[k];
        }
      }
      1 + i
  }

  function TokenFor(toks: seq<nat>, i: nat): Token { if i < |toks| then Real(toks[i]) else Pseudo }

  lemma {:induction false} PutResultsAt(fs: seq<Fifo<Token>>, rows: seq<seq<nat>>, toks: seq<nat>, e: nat)
    requires RowsIn(fs, rows) && AllInRange(fs)
    requires DistinctRows(rows) && e < |fs|
    ensures PutResults(fs, rows, toks)[e] ==
      (if InRow(rows, e) then Put(fs[e], TokenFor(toks, RowOf(rows, e))) else fs[e])
    decreases |rows|
  {
    if rows != [] {
      var t := TokenFor(toks, 0);
      var rest := if toks == [] then [] else toks[1..];
      var fs1 := PutRow(fs, rows[0], t);
      assert RowIn(fs, rows[0]) && DistinctRow(rows[0]);
      PutRowAt(fs, rows[0], t, e);
      RowsTail(rows, e);
      RowsInTail(fs, rows, t);
      PutResultsAt(fs1, rows[1..], rest, e);
    }
  }

  lemma RowsTail(rows: seq<seq<nat>>, e: nat)
    requires DistinctRows(rows) && rows != []
    ensures DistinctRows(rows[1..])
    ensures InRow(rows, e) <==> e in rows[0] || InRow(rows[1..], e)
    ensures e in rows[0] ==> !InRow(rows[1..], e)
    ensures e !in rows[0] ==> RowOf(rows, e) == 1 + RowOf(rows[1..], e)
  {
    var rest := rows[1..];
    assert forall i :: 0 <= i < |rest| ==> rest[i] == rows[i + 1];
    if InRow(rows, e) && e !in rows[0] {
      var k :| 0 <= k < |rows| && e in rows[k];
      assert rest[k - 1] == rows[k];
    }
    if InRow(rest, e) {
      var k :| 0 <= k < |rest| && e in rest[k];
      assert e in rows[k + 1];
    }
  }

  lemma InsAreSinks(g: Graph, a: nat, e: nat)
    requires WellFormed(g) && a < |g.actors| && e < |g.src|
    ensures e in g.actors[a].ins <==> g.snk[e] == a
    ensures InRow(g.actors[a].outs, e) <==> g.src[e] == a
  {
    assert WellFormedActor(g, a);
    if InRow(g.actors[a].outs, e) {
      var i :| 0 <= i < |g.actors[a].outs| && e in g.actors[a].outs[i];
      assert MadeBy(g, g.actors[a].outs[i], a);
    }
  }

  lemma ActorRowsIn(g: Graph, s: State, a: nat)
    requires WellFormed(g) && Shaped(g, s) && a < |g.actors|
    ensures RowIn(s.fifos, g.actors[a].ins) && DistinctRow(g.actors[a].ins) && g.actors[a].ins != []
    ensures RowsIn(s.fifos, g.actors[a].outs) && DistinctRows(g.actors[a].outs)
  {
    assert WellFormedActor(g, a);
    var r := g.actors[a];
    assert forall i :: 0 <= i < |r.ins| ==> r.ins[i] in r.ins;
    forall i | 0 <= i < |r.outs|
      ensures RowIn(s.fifos, r.outs[i])
    {
      assert MadeBy(g, r.outs[i], a);
      forall j | 0 <= j < |r.outs[i]|
        ensures r.outs[i][j] < |s.fifos|
      {
        assert r.outs[i][j] in r.outs[i];
      }
    }
  }

  // ------------------------------------------------------------ making ready

  // All inputs hold a token.
  ghost predicate ActorReady(g: Graph, s: State, a: nat)
    requires Shaped(g, s) && a < |g.actors|
  {
    forall e :: e in g.actors[a].ins && e < |s.fifos| ==> !Empty(s.fifos[e])
  }

  // Every successor FIFO is full.
  ghost predicate SuccessorFull(g: Graph, s: State, a: nat)
    requires Shaped(g, s) && a < |g.actors|
  {
    forall i, e :: 0 <= i < |g.actors[a].outs| && e in g.actors[a].outs[i] && e < |s.fifos| ==> Full(s.fifos[e])
  }

  ghost predicate FireCheck(g: Graph, s: State, a: nat)
    requires Shaped(g, s) && a < |g.actors|
  {
    ActorReady(g, s, a) && !SuccessorFull(g, s, a)
  }

  function DataOf(t: Token): seq<nat> { if t.Real? then [t.data] else [] }

  // The real tokens at the heads of a row, in row order.
  function RealHeads(fs: seq<Fifo<Token>>, row: seq<nat>): seq<nat>
    requires RowIn(fs, row) && forall i :: 0 <= i < |row| ==> !Empty(fs[row[i]])
    decreases |row|
  {
    if row == [] then [] else DataOf(Head(fs[row[0]])) + RealHeads(fs, row[1..])
  }

  // The data of actor a's next real tokens, in slot order.
  ghost function HeadsOf(g: Graph, s: State, a: nat): seq<nat>
    requires WellFormed(g) && Shaped(g, s) && a < |g.actors| && ActorReady(g, s, a)
  {
    ActorRowsIn(g, s, a);
    assert forall i :: 0 <= i < |g.actors[a].ins| ==> g.actors[a].ins[i] in g.actors[a].ins;
    RealHeads(s.fifos, g.actors[a].ins)
  }

  // The FIFOs after one token left every input of actor a.
  ghost function Taken(g: Graph, s: State, a: nat): seq<Fifo<Token>>
    requires WellFormed(g) && Shaped(g, s) && a < |g.actors|
  {
    ActorRowsIn(g, s, a);
    DropRow(s.fifos, g.actors[a].ins)
  }

  // One firing's worth of tokens leaves the inputs: a pseudo task passes
  // pseudo tokens straight on, any other becomes a ready entry.
  function Consume(g: Graph, s: State, a: nat): (t: State)
    requires WellFormed(g) && Shaped(g, s) && a < |g.actors| && ActorReady(g, s, a)
    ensures Shaped(g, t)
  {
    ActorRowsIn(g, s, a);
    var ins, outs := g.actors[a].ins, g.actors[a].outs;
    assert forall i :: 0 <= i < |ins| ==> ins[i] in ins;
    var fs := DropRow(s.fifos, ins);
    ActorRowsIn(g, s.(fifos := fs), a);
    if Head(s.fifos[ins[0]]).Pseudo? then s.(fifos := PutResults(fs, outs, []))
    else s.(fifos := fs, ready := s.ready + [Ready(a, RealHeads(s.fifos, ins))])
  }

  predicate PseudoFirst(g: Graph, s: State, a: nat)
    requires WellFormed(g) && Shaped(g, s) && a < |g.actors| && ActorReady(g, s, a)
  {
    ActorRowsIn(g, s, a);
    assert g.actors[a].ins[0] in g.actors[a].ins;
    Head(s.fifos[g.actors[a].ins[0]]).Pseudo?
  }

  lemma ConsumeFifos(g: Graph, s: State, a: nat, e: nat)
    requires WellFormed(g) && Shaped(g, s) && a < |g.actors| && ActorReady(g, s, a) && e < |s.fifos|
    ensures Consume(g, s, a).fifos[e] ==
      (if g.snk[e] == a then Drop(s.fifos[e])
       else if PseudoFirst(g, s, a) && g.src[e] == a then Put(s.fifos[e], Pseudo)
       else s.fifos[e])
  {
    ActorRowsIn(g, s, a);
    InsAreSinks(g, a, e);
    DropRowAt(s.fifos, g.actors[a].ins, e);
    var fs := DropRow(s.fifos, g.actors[a].ins);
    ActorRowsIn(g, s.(fifos := fs), a);
    PutResultsAt(fs, g.actors[a].outs, [], e);
  }
}
