// The program as written and as launched, with at most two packets: the theorems
// about the intended drain hold for it without a condition on its lists.
module WrittenRuns {
  import opened TokenFifo
  import opened Dataflow
  import opened TokenFlow
  import opened SchedulerSteps
  import opened SchedulerRuns
  import opened WrittenHandler
  import opened Determinacy
  import opened TokenShares
  import opened RefCounts

  // A run of the program as written from its launch.
  ghost predicate Launched(g: Graph, fs: seq<Fifo<Token>>, blocks: nat, packets: seq<int>, ss: seq<State>, evs: seq<Event>) {
    && WellFormed(g) && FreshFifos(g, fs) && |packets| <= 2
    && WrittenRun(g, |packets|, ss, evs) && ss[0] == Start(g, fs, blocks, packets)
  }

  lemma LaunchedIsRun(g: Graph, fs: seq<Fifo<Token>>, blocks: nat, packets: seq<int>, ss: seq<State>, evs: seq<Event>)
    ensures Launched(g, fs, blocks, packets, ss, evs) <==> |packets| <= 2 && RunFrom(g, fs, blocks, packets, ss, evs)
    ensures Launched(g, fs, blocks, packets, ss, evs) ==> |ss| == |evs| + 1
  {
    hide WellFormed, Run, WrittenStep;
    if |packets| <= 2 { TwoPacketRuns(g, |packets|, ss, evs); }
  }

  // Every task returned all of its results.
  ghost predicate FullReturns(g: Graph, ss: seq<State>, evs: seq<Event>)
    requires |ss| > |evs|
  {
    forall k :: 0 <= k < |evs| ==> FullReturn(g, ss[k], evs[k])
  }

  // Whatever the blocks do, a finished run of a static graph has put the value that
  // the graph and packet k determine on every edge.
  lemma WrittenRunComputesGraph(
    g: Graph, fs: seq<Fifo<Token>>, blocks: nat, packets: seq<int>, ss: seq<State>, evs: seq<Event>, e: nat, k: nat)
    requires Launched(g, fs, blocks, packets, ss, evs) && blocks > 0 && FullReturns(g, ss, evs)
    requires Finished(ss[|evs|]) && e < |g.src| && k < |packets|
    ensures
      var s := ss[|evs|];
      e < |s.fifos| && k < |s.fifos[e].cells| && s.fifos[e].cells[k].Real? && TokenValue(s, e, k) == RefEdge(g, packets, e, k)
  {
    LaunchedIsRun(g, fs, blocks, packets, ss, evs);
    hide WellFormed, Run, WrittenRun, FullReturn, Stuck;
    FinishedRunComputesGraph(g, fs, blocks, packets, ss, evs, e, k);
  }

  // Two runs, with any numbers of blocks and any orders of events, agree on every
  // token that both have produced.
  lemma WrittenRunsAgree(
    g: Graph, packets: seq<int>, fs: seq<Fifo<Token>>, blocks: nat, ss: seq<State>, evs: seq<Event>, n: nat,
    fs': seq<Fifo<Token>>, blocks': nat, ss': seq<State>, evs': seq<Event>, n': nat, e: nat, k: nat)
    requires Launched(g, fs, blocks, packets, ss, evs) && FullReturns(g, ss, evs) && n < |ss|
    requires Launched(g, fs', blocks', packets, ss', evs') && FullReturns(g, ss', evs') && n' < |ss'|
    requires e < |g.src| && |ss[n].fifos| == |ss'[n'].fifos| == |g.src| && k < ss[n].fifos[e].wptr && k < ss'[n'].fifos[e].wptr
    ensures k < |ss[n].fifos[e].cells| && k < |ss'[n'].fifos[e].cells|
    ensures TokenValue(ss[n], e, k) == TokenValue(ss'[n'], e, k)
  {
    LaunchedIsRun(g, fs, blocks, packets, ss, evs);
    LaunchedIsRun(g, fs', blocks', packets, ss', evs');
    hide WellFormed, FreshFifos, Run, WrittenRun, FullReturn, Start, TokenValue;
    RunsAgree(g, packets, fs, blocks, ss, evs, n, fs', blocks', ss', evs', n', e, k);
  }

  // Once a run of a static graph is finished, the data still allocated is exactly
  // what waits on edges that no actor reads.
  lemma WrittenRunLeavesOutputs(
    g: Graph, fs: seq<Fifo<Token>>, blocks: nat, packets: seq<int>, ss: seq<State>, evs: seq<Event>, d: nat)
    requires Launched(g, fs, blocks, packets, ss, evs) && blocks > 0 && FullReturns(g, ss, evs)
    requires Finished(ss[|evs|]) && d < |ss[|evs|].cells|
    ensures !ss[|evs|].cells[d].freed <==> OnOutput(g, ss[|evs|], |packets|, d)
  {
    LaunchedIsRun(g, fs, blocks, packets, ss, evs);
    hide WellFormed, FreshFifos, Run, WrittenRun, FullReturn, Start, Finished, OnOutput, RunDrops;
    StaticRunsDropNone(g, fs, blocks, packets, ss, evs, |evs|, d);
    OnlyOutputsRemain(g, fs, blocks, packets, ss, evs, d);
  }
}
