// From the calls that return a task's results to the FIFOs they end in: the
// tokens join a list at its head (dma/dma.c:127-128) and leave it from its tail
// (dma/transfer_callback.c:25-46).
module ResultTokens {
  import opened Machine
  import opened TokenFifo
  import opened Dataflow
  import DmaChain
  import ActorScheduler

  // The token list holds the tokens of these calls, newest first.
  ghost predicate ListOf(list: seq<nat>, toks: seq<nat>) {
    |list| == |toks| && forall i :: 0 <= i < |toks| ==> list[|toks| - 1 - i] == toks[i]
  }

  // Passing on that list gives every edge of row i the token of call i, and a
  // pseudo token if there was no such call.
  lemma CallReachesRow(fs: seq<Fifo<Token>>, rows: seq<seq<nat>>, list: seq<nat>, toks: seq<nat>, i: nat, e: nat)
    requires RowsIn(fs, rows) && AllInRange(fs) && DistinctRows(rows) && ListOf(list, toks)
    requires i < |rows| && e in rows[i] && e < |fs|
    ensures InRange(fs[e])
    ensures PutResults(fs, rows, FromTail(list))[e] == Put(fs[e], if i < |toks| then Real(toks[i]) else Pseudo)
  {
    hide Put, PutResults, PutRow, DistinctRows, RowOf, InRow, RowIn, RowsIn, AllInRange;
    PutResultsAt(fs, rows, FromTail(list), e);
    TokenOfCall(list, toks, i);
    hide ListOf, TokenFor, FromTail;
    OneRowHolds(rows, i, e);
    CellsInRange(fs, e);
  }

  lemma TokenOfCall(list: seq<nat>, toks: seq<nat>, i: nat)
    requires ListOf(list, toks)
    ensures TokenFor(FromTail(list), i) == if i < |toks| then Real(toks[i]) else Pseudo
  {
    if i < |toks| { assert list[|toks| - 1 - i] == toks[i]; }
  }

  lemma CellsInRange(fs: seq<Fifo<Token>>, e: nat)
    requires AllInRange(fs) && e < |fs|
    ensures InRange(fs[e])
  {
  }

  lemma OneRowHolds(rows: seq<seq<nat>>, i: nat, e: nat)
    requires DistinctRows(rows) && i < |rows| && e in rows[i]
    ensures InRow(rows, e) && RowOf(rows, e) == i
  {
  }

  // alloc_result's calls, one for each result and the last with the block, and
  // then scheduler_pass_result on the list they leave.
  method ReturnAndPass(l: DmaChain.Linker, s: ActorScheduler.Scheduler, a: nat, lens: seq<nat>, block: nat, toks: seq<nat>,
                       ideal: nat, junk: DmaChain.Lli)
    requires l.Valid() && l.head.None? && |lens| == |toks| > 0
    requires WellFormed(s.g) && Shaped(s.g, s.Now()) && a < |s.g.actors| && s.fire[a] != [] && s.linger[a] != []
    modifies l, s
    ensures Shaped(s.g, s.Now()) && |s.fifos| == |old(s.fifos)|
    ensures forall i, e :: 0 <= i < |s.g.actors[a].outs| && e in s.g.actors[a].outs[i] && e < |s.fifos| ==>
      InRange(old(s.fifos[e])) && s.fifos[e] == Put(old(s.fifos[e]), if i < |toks| then Real(toks[i]) else Pseudo)
  {
    var calls := seq(|toks|, i requires 0 <= i < |toks| => Some(toks[i]));
    assert DmaChain.GivenFrom(calls, 0);
    var msg, all, sizes := l.TransferAll(lens, block, calls, junk);
    assert forall i :: 0 <= i < |toks| ==> calls[i].value == toks[i];
    assert ListOf(msg.tokens, toks);
    ghost var fs := s.fifos;
    ActorRowsIn(s.g, s.Now(), a);
    var next := s.PassResult(a, msg.tokens, ideal);
    forall i, e | 0 <= i < |s.g.actors[a].outs| && e in s.g.actors[a].outs[i] && e < |s.fifos|
      ensures InRange(fs[e]) && s.fifos[e] == Put(fs[e], if i < |toks| then Real(toks[i]) else Pseudo)
    {
      CallReachesRow(fs, s.g.actors[a].outs, msg.tokens, toks, i, e);
    }
  }
}
