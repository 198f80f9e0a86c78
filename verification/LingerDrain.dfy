// The drain loop of result_deliver as it is written.  It walks the linger list
// comparing blocks, removes the newest linger rather than the one it found, and
// starts again until the list is empty (dma/transfer_callback.c:59-61, 70-80,
// 110-112).  A block is free again as soon as its result lingers, so several
// firings of an actor may have been on the same block.
module LingerDrain {
  import opened Dataflow
  import opened TokenFlow
  import opened SchedulerSteps
  import opened SchedulerInvariants
  import opened SchedulerRuns

  // A firing and the block it was on: what the lists hold is the block.
  datatype Entry = Entry(id: nat, block: nat)

  // The firings still waiting, oldest first; the linger list in list order,
  // newest first; the block whose result is expected next; the position of the
  // walk; and what has been passed on so far.
  datatype Drain = Drain(fire: seq<Entry>, linger: seq<Entry>, ideal: nat, pos: nat, released: seq<Entry>)

  // One visit, or the start of the next walk.  After a match the walk goes on
  // behind the visited node, which is the same position once the head is gone.
  function Visit(d: Drain): Drain {
    if d.linger == [] || d.fire == [] then d
    else if d.pos >= |d.linger| then d.(pos := 0)
    else if d.linger[d.pos].block != d.ideal then d.(pos := d.pos + 1)
    else Drain(d.fire[1..], d.linger[1..], if |d.fire| > 1 then d.fire[1].block else d.ideal, d.pos,
               d.released + [d.linger[d.pos]])
  }

  function Visits(d: Drain, n: nat): Drain {
    if n == 0 then d else Visit(Visits(d, n - 1))
  }

  // The loop starts after the oldest firing, on block `first`, was passed on.
  function Begin(first: nat, fire: seq<Entry>, linger: seq<Entry>): Drain {
    Drain(fire, linger, if fire == [] then first else fire[0].block, 0, [])
  }

  // It ends, having passed on these results in this order.
  ghost predicate EndsWith(d: Drain, released: seq<Entry>) {
    exists n: nat :: Visits(d, n).linger == [] && Visits(d, n).released == released
  }

  ghost predicate Ends(d: Drain) { exists n: nat :: Visits(d, n).linger == [] }

  ghost predicate DistinctEntries(es: seq<Entry>) {
    forall i, j :: 0 <= i < j < |es| ==> es[i] != es[j]
  }

  ghost predicate DistinctBlocks(es: seq<Entry>) {
    forall i, j :: 0 <= i < j < |es| ==> es[i].block != es[j].block
  }

  // Some entry of the list is on this block.
  predicate OnBlock(es: seq<Entry>, block: nat) { exists j :: 0 <= j < |es| && es[j].block == block }

  // When k results are out, one of the remaining lingers is on the block of the
  // next firing.
  ghost predicate Found(fire: seq<Entry>, linger: seq<Entry>, k: nat)
    requires k < |fire| && k <= |linger|
  {
    OnBlock(linger[k..], fire[k].block)
  }

  ghost predicate AllFound(fire: seq<Entry>, linger: seq<Entry>)
    requires |linger| <= |fire|
  {
    forall k :: 0 <= k < |linger| ==> Found(fire, linger, k)
  }

  // ------------------------------------------------------------ the walk

  // What is known after any number of visits: m results were passed on for the
  // m oldest firings, each from a linger still in the list, on the right block.
  ghost predicate After(d0: Drain, d: Drain) {
    var m := |d.released|;
    && m <= |d0.fire| && m <= |d0.linger|
    && d.fire == d0.fire[m..] && d.linger == d0.linger[m..]
    && (m < |d0.fire| ==> d.ideal == d0.fire[m].block)
    && (forall k :: 0 <= k < m ==> Passed(d0, d.released, k))
  }

  ghost predicate Passed(d0: Drain, released: seq<Entry>, k: nat)
    requires k < |released| && k < |d0.fire| && k < |d0.linger|
  {
    released[k] in d0.linger[k..] && released[k].block == d0.fire[k].block
  }

  ghost predicate Begun(d: Drain) { d.released == [] && d.pos == 0 && (d.fire != [] ==> d.ideal == d.fire[0].block) }

  lemma {:induction false} VisitsKeepAfter(d: Drain, n: nat)
    requires Begun(d)
    ensures After(d, Visits(d, n))
  {
    if n > 0 {
      VisitsKeepAfter(d, n - 1);
      VisitKeepsAfter(d, Visits(d, n - 1));
    }
  }

  lemma VisitKeepsAfter(d0: Drain, d: Drain)
    requires After(d0, d)
    ensures After(d0, Visit(d))
  {
    var m, e := |d.released|, Visit(d);
    if |e.released| > m {
      assert e.fire == d0.fire[m + 1..] && e.linger == d0.linger[m + 1..];
      assert d.linger[d.pos] in d0.linger[m..];
      forall k | 0 <= k < m + 1
        ensures Passed(d0, e.released, k)
      {
        if k < m { assert Passed(d0, d.released, k) && e.released[k] == d.released[k]; }
      }
    }
  }

  lemma {:induction false} VisitsAdd(d: Drain, m: nat, n: nat)
    ensures Visits(Visits(d, m), n) == Visits(d, m + n)
  {
    hide Visit;
    if n > 0 { VisitsAdd(d, m, n - 1); }
  }

  // An empty list stays empty, so the outcome is one.
  lemma {:induction false} EndedStays(d: Drain, n: nat, m: nat)
    requires Visits(d, n).linger == [] && n <= m
    ensures Visits(d, m) == Visits(d, n)
  {
    if n < m { EndedStays(d, n, m - 1); }
  }

  lemma OutcomeIsOne(d: Drain, released: seq<Entry>, other: seq<Entry>)
    requires EndsWith(d, released) && EndsWith(d, other)
    ensures released == other
  {
    var n: nat :| Visits(d, n).linger == [] && Visits(d, n).released == released;
    var m: nat :| Visits(d, m).linger == [] && Visits(d, m).released == other;
    if n <= m { EndedStays(d, n, m); } else { EndedStays(d, m, n); }
  }

  // From anywhere at or before a match the walk gets to a match.
  lemma {:induction false} WalkTo(d: Drain, j: nat) returns (n: nat)
    requires d.fire != [] && d.pos <= j < |d.linger| && d.linger[j].block == d.ideal
    ensures |Visits(d, n).released| == |d.released| + 1
    decreases j - d.pos
  {
    assert Visits(d, 1) == Visit(Visits(d, 0)) == Visit(d);
    n := 1;
    if d.linger[d.pos].block != d.ideal {
      n := WalkTo(Visit(d), j);
      VisitsAdd(d, 1, n);
      n := 1 + n;
    }
  }

  // From behind the last match it gets back to the head, or to a match.
  lemma {:induction false} WalkBack(d: Drain) returns (n: nat)
    requires d.fire != [] && d.linger != []
    ensures |Visits(d, n).released| == |d.released| + 1 || Visits(d, n) == d.(pos := 0)
    decreases |d.linger| - d.pos
  {
    assert Visits(d, 1) == Visit(Visits(d, 0)) == Visit(d);
    n := 1;
    if d.pos < |d.linger| && d.linger[d.pos].block != d.ideal {
      n := WalkBack(Visit(d));
      VisitsAdd(d, 1, n);
      n := 1 + n;
    }
  }

  // While a linger is on the expected block, the next result gets out.
  lemma NextGetsOut(d: Drain) returns (n: nat)
    requires d.fire != [] && OnBlock(d.linger, d.ideal)
    ensures |Visits(d, n).released| == |d.released| + 1
  {
    var j :| 0 <= j < |d.linger| && d.linger[j].block == d.ideal;
    n := WalkBack(d);
    if |Visits(d, n).released| != |d.released| + 1 {
      var m := WalkTo(d.(pos := 0), j);
      VisitsAdd(d, n, m);
      n := n + m;
    }
  }

  lemma NoVisit(d: Drain)
    ensures Visits(d, 0) == d
  {
  }

  lemma OneIsFound(d0: Drain, d: Drain)
    requires After(d0, d) && |d.released| < |d0.linger| <= |d0.fire| && Found(d0.fire, d0.linger, |d.released|)
    ensures d.fire != [] && OnBlock(d.linger, d.ideal)
  {
  }

  lemma {:induction false} FoundGetsOut(d0: Drain, m: nat) returns (n: nat)
    requires Begun(d0) && |d0.linger| <= |d0.fire| && AllFound(d0.fire, d0.linger) && m <= |d0.linger|
    ensures |Visits(d0, n).released| == m
  {
    hide Visit, Visits;
    n := 0;
    NoVisit(d0);
    if m > 0 {
      n := FoundGetsOut(d0, m - 1);
      var d := Visits(d0, n);
      VisitsKeepAfter(d0, n);
      assert Found(d0.fire, d0.linger, m - 1);
      hide AllFound;
      OneIsFound(d0, d);
      hide After, Found, OnBlock;
      var k := NextGetsOut(d);
      VisitsAdd(d0, n, k);
      n := n + k;
    }
  }

  // The written loop ends if and only if, for each linger still to be removed,
  // one of the lingers then left is on the block of the firing whose turn it is.
  lemma DrainEndsIff(first: nat, fire: seq<Entry>, linger: seq<Entry>)
    requires |linger| <= |fire|
    ensures Ends(Begin(first, fire, linger)) <==> AllFound(fire, linger)
  {
    var d := Begin(first, fire, linger);
    if AllFound(fire, linger) {
      var n := FoundGetsOut(d, |linger|);
      VisitsKeepAfter(d, n);
      assert Visits(d, n).linger == [];
    }
    if Ends(d) {
      var n: nat :| Visits(d, n).linger == [];
      VisitsKeepAfter(d, n);
      forall k | 0 <= k < |linger|
        ensures Found(fire, linger, k)
      {
        var r := Visits(d, n).released;
        assert Passed(d, r, k);
        var j :| 0 <= j < |linger[k..]| && linger[k..][j] == r[k];
      }
    }
  }

  // ------------------------------------------------------- which linger is found

  // Walking on from position `from`, and round from the head, q is the first
  // position of a linger on this block.
  ghost predicate FirstFound(linger: seq<Entry>, from: nat, block: nat, q: nat) {
    && q < |linger| && linger[q].block == block
    && (if from <= q then NoneOn(linger, from, q, block) else NoneOn(linger, from, |linger|, block) && NoneOn(linger, 0, q, block))
  }

  ghost predicate NoneOn(linger: seq<Entry>, i: nat, j: nat, block: nat) {
    forall k :: i <= k < j && k < |linger| ==> linger[k].block != block
  }

  // The k-th result passed on was found at position qs[k] of what was left of the
  // list, whose newest k lingers were gone, by a walk that went on where the one
  // before had been found.
  ghost predicate FoundOneByOne(fire: seq<Entry>, linger: seq<Entry>, qs: seq<nat>, released: seq<Entry>) {
    && |qs| == |released| && |released| <= |fire| && |released| <= |linger|
    && forall k :: 0 <= k < |released| ==> FoundNext(fire, linger, qs, released, k)
  }

  ghost predicate FoundNext(fire: seq<Entry>, linger: seq<Entry>, qs: seq<nat>, released: seq<Entry>, k: nat)
    requires k < |released| == |qs| && |released| <= |fire| && |released| <= |linger|
  {
    && FirstFound(linger[k..], if k == 0 then 0 else qs[k - 1], fire[k].block, qs[k])
    && released[k] == linger[k..][qs[k]]
  }

  // Where the walk is: it has seen nothing from `from` on up to here, or it has
  // begun again at the head.
  ghost predicate Searching(d: Drain, from: nat, again: bool) {
    if again then NoneOn(d.linger, from, |d.linger|, d.ideal) && NoneOn(d.linger, 0, d.pos, d.ideal)
    else from <= d.pos && NoneOn(d.linger, from, d.pos, d.ideal)
  }

  lemma {:induction false} VisitsFind(d: Drain, n: nat) returns (qs: seq<nat>, again: bool)
    requires Begun(d)
    ensures After(d, Visits(d, n)) && FoundOneByOne(d.fire, d.linger, qs, Visits(d, n).released)
    ensures Searching(Visits(d, n), if qs == [] then 0 else qs[|qs| - 1], again)
  {
    qs, again := [], false;
    NothingFound(d);
    hide Visits, Visit, After, FoundOneByOne, Searching;
    if n > 0 {
      qs, again := VisitsFind(d, n - 1);
      VisitsKeepAfter(d, n);
      OneVisit(d, n - 1);
      qs, again := VisitFinds(d, Visits(d, n - 1), qs, again);
    }
  }

  lemma NothingFound(d: Drain)
    requires Begun(d)
    ensures Visits(d, 0) == d && After(d, d) && FoundOneByOne(d.fire, d.linger, [], d.released) && Searching(d, 0, false)
  {
  }

  lemma OneVisit(d: Drain, n: nat)
    ensures Visits(d, n + 1) == Visit(Visits(d, n))
  {
  }

  lemma VisitFinds(d0: Drain, d: Drain, qs: seq<nat>, again: bool) returns (qs': seq<nat>, again': bool)
    requires After(d0, d) && FoundOneByOne(d0.fire, d0.linger, qs, d.released)
    requires Searching(d, if qs == [] then 0 else qs[|qs| - 1], again)
    ensures FoundOneByOne(d0.fire, d0.linger, qs', Visit(d).released)
    ensures Searching(Visit(d), if qs' == [] then 0 else qs'[|qs'| - 1], again')
  {
    hide FoundOneByOne;
    var from := if qs == [] then 0 else qs[|qs| - 1];
    qs', again' := qs, again;
    if d.linger != [] && d.fire != [] {
      if d.pos >= |d.linger| {
        again' := true;
      } else if d.linger[d.pos].block == d.ideal {
        qs', again' := qs + [d.pos], false;
        HereIsFirst(d, from, again);
        OneMoreFound(d0, d, qs);
      }
    }
  }

  lemma HereIsFirst(d: Drain, from: nat, again: bool)
    requires Searching(d, from, again) && d.pos < |d.linger| && d.linger[d.pos].block == d.ideal
    ensures FirstFound(d.linger, from, d.ideal, d.pos)
  {
  }

  lemma OneMoreFound(d0: Drain, d: Drain, qs: seq<nat>)
    requires After(d0, d) && FoundOneByOne(d0.fire, d0.linger, qs, d.released)
    requires d.fire != [] && d.pos < |d.linger|
    requires FirstFound(d.linger, if qs == [] then 0 else qs[|qs| - 1], d.ideal, d.pos)
    ensures FoundOneByOne(d0.fire, d0.linger, qs + [d.pos], d.released + [d.linger[d.pos]])
  {
    hide FirstFound;
    var m, ps, released := |d.released|, qs + [d.pos], d.released + [d.linger[d.pos]];
    assert d.linger == d0.linger[m..] && d.fire == d0.fire[m..] && d.ideal == d0.fire[m].block;
    forall k | 0 <= k < m + 1
      ensures FoundNext(d0.fire, d0.linger, ps, released, k)
    {
      if k < m { assert FoundNext(d0.fire, d0.linger, qs, d.released, k); }
    }
  }

  // When the loop ends it has passed on, for each firing in turn, the first linger
  // on that firing's block that the walk meets.
  lemma ReleasedAreFirstFound(first: nat, fire: seq<Entry>, linger: seq<Entry>, released: seq<Entry>) returns (qs: seq<nat>)
    requires |linger| <= |fire| && EndsWith(Begin(first, fire, linger), released)
    ensures |released| == |linger| && FoundOneByOne(fire, linger, qs, released)
  {
    var d, again := Begin(first, fire, linger), false;
    var n: nat :| Visits(d, n).linger == [] && Visits(d, n).released == released;
    qs, again := VisitsFind(d, n);
  }

  // ------------------------------------------------------------ the right order

  // If each of the first firings was found no further up than its own position,
  // the list is those firings in order.
  lemma {:induction false} FoundInOrder(fire: seq<Entry>, linger: seq<Entry>, k: nat)
    requires DistinctEntries(fire) && |linger| <= |fire| && k < |linger|
    requires forall j :: 0 <= j < |linger| ==> fire[j] in linger[j..]
    ensures linger[k] == fire[k]
    decreases |linger| - k
  {
    var j :| 0 <= j < |linger| - k && linger[k..][j] == fire[k];
    if j > 0 {
      FoundInOrder(fire, linger, k + j);
    }
  }

  lemma PrefixVisit(e: Drain)
    requires e.pos == 0 && e.fire != [] && e.linger != [] && e.linger[0].block == e.ideal
    ensures
      var v := Visit(e);
      && v.fire == e.fire[1..] && v.linger == e.linger[1..] && v.pos == 0
      && v.released == e.released + [e.linger[0]] && (|e.fire| > 1 ==> v.ideal == e.fire[1].block)
  {
  }

  lemma {:induction false} PrefixDrains(d: Drain, n: nat)
    requires Begun(d) && d.linger <= d.fire && n <= |d.linger|
    ensures
      var e := Visits(d, n);
      && e.fire == d.fire[n..] && e.linger == d.linger[n..] && e.released == d.linger[..n]
      && e.pos == 0 && (n < |d.fire| ==> e.ideal == d.fire[n].block)
  {
    if n > 0 {
      PrefixDrains(d, n - 1);
      var e := Visits(d, n - 1);
      assert Visits(d, n) == Visit(e) && e.linger[0] == d.linger[n - 1] == d.fire[n - 1];
      hide Visit, Visits;
      PrefixVisit(e);
      assert e.fire[1..] == d.fire[n..] && e.linger[1..] == d.linger[n..];
      assert d.linger[..n] == d.linger[..n - 1] + [d.linger[n - 1]];
      assert |e.fire| > 1 ==> e.fire[1] == d.fire[n];
    }
  }

  // It passes on the next firings' results, in firing order, if and only if the
  // list, newest first, is those firings in firing order.
  lemma DrainInOrderIff(first: nat, fire: seq<Entry>, linger: seq<Entry>)
    requires DistinctEntries(fire) && |linger| <= |fire|
    ensures EndsWith(Begin(first, fire, linger), fire[..|linger|]) <==> linger <= fire
  {
    var d, m := Begin(first, fire, linger), |linger|;
    if linger <= fire {
      PrefixDrains(d, m);
      assert Visits(d, m).linger == [] && Visits(d, m).released == fire[..m];
    }
    if EndsWith(d, fire[..m]) {
      var n: nat :| Visits(d, n).linger == [] && Visits(d, n).released == fire[..m];
      VisitsKeepAfter(d, n);
      forall k | 0 <= k < m
        ensures fire[k] in linger[k..]
      {
        assert Passed(d, fire[..m], k);
      }
      forall k | 0 <= k < m
        ensures linger[k] == fire[k]
      {
        FoundInOrder(fire, linger, k);
      }
    }
  }

  // While no two of the waiting firings were on one block, the loop either does
  // the right thing or never returns.
  lemma DistinctBlocksDrain(first: nat, fire: seq<Entry>, linger: seq<Entry>)
    requires DistinctBlocks(fire) && |linger| <= |fire| && forall e :: e in linger ==> e in fire
    ensures Ends(Begin(first, fire, linger)) <==> linger <= fire
  {
    DrainInOrderIff(first, fire, linger);
    DrainEndsIff(first, fire, linger);
    if AllFound(fire, linger) {
      forall k | 0 <= k < |linger|
        ensures fire[k] in linger[k..]
      {
        assert Found(fire, linger, k);
        var j :| 0 <= j < |linger[k..]| && linger[k..][j].block == fire[k].block;
        assert linger[k + j] in linger;
        var i :| 0 <= i < |fire| && fire[i] == linger[k + j];
      }
      forall k | 0 <= k < |linger|
        ensures linger[k] == fire[k]
      {
        FoundInOrder(fire, linger, k);
      }
    }
  }

  // ------------------------------------------------------- in scheduler states

  function Entries(fire: seq<Firing>): (es: seq<Entry>)
    ensures |es| == |fire|
    ensures forall k :: 0 <= k < |fire| ==> es[k] == Entry(fire[k].id, fire[k].block)
  {
    seq(|fire|, k requires 0 <= k < |fire| => Entry(fire[k].id, fire[k].block))
  }

  // The position of a firing; |fire| if it is not there.
  function Position(fire: seq<Firing>, id: nat): (k: nat)
    ensures k <= |fire|
    ensures k < |fire| ==> fire[k].id == id
    ensures k == |fire| ==> forall j :: 0 <= j < |fire| ==> fire[j].id != id
  {
    if fire == [] then 0 else if fire[0].id == id then 0 else 1 + Position(fire[1..], id)
  }

  function EntryOf(fire: seq<Firing>, id: nat): (e: Entry)
    ensures e.id == id
  {
    var k := Position(fire, id);
    Entry(id, if k < |fire| then fire[k].block else 0)
  }

  // What the linger list's nodes hold.
  function Lingers(fire: seq<Firing>, linger: seq<nat>): (es: seq<Entry>)
    ensures |es| == |linger|
    ensures forall i :: 0 <= i < |linger| ==> es[i] == EntryOf(fire, linger[i])
  {
    seq(|linger|, i requires 0 <= i < |linger| => EntryOf(fire, linger[i]))
  }

  // The drain that delivering actor a's oldest result starts.
  function DrainOf(s: State, a: nat): Drain
    requires a < |s.fire| == |s.linger| && s.fire[a] != []
  {
    Begin(s.fire[a][0].block, Entries(s.fire[a])[1..], Lingers(s.fire[a], s.linger[a]))
  }

  // The lingering results are those of the next firings, newest first in list
  // order but also oldest first in firing order.
  predicate InOrder(s: State, a: nat)
    requires a < |s.fire| == |s.linger| && s.fire[a] != []
  {
    DrainOf(s, a).linger <= DrainOf(s, a).fire
  }

  lemma {:induction false} NoMoreThan(part: seq<nat>, whole: seq<nat>)
    requires DistinctRow(part) && forall id :: id in part ==> id in whole
    ensures |part| <= |whole|
    decreases |part|
  {
    if part != [] {
      assert part[0] in part && part[0] in whole;
      var j :| 0 <= j < |whole| && whole[j] == part[0];
      var rest, less := part[1..], RemoveAt(whole, j);
      forall id | id in rest
        ensures id in less
      {
        var i :| 0 <= i < |rest| && rest[i] == id;
        assert part[i + 1] == id && id in part && id != part[0];
        var k :| 0 <= k < |whole| && whole[k] == id;
        assert less[if k < j then k else k - 1] == id;
      }
      NoMoreThan(rest, less);
    }
  }

  function IdsOf(es: seq<Entry>): (ids: seq<nat>)
    ensures |ids| == |es| && forall k :: 0 <= k < |es| ==> ids[k] == es[k].id
  {
    seq(|es|, k requires 0 <= k < |es| => es[k].id)
  }

  // Between events the results that wait are behind the oldest firing, each
  // once, and there are no more of them than firings.
  lemma WaitingBehindOldest(g: Graph, s: State, P: int, a: nat)
    requires Inv(g, s, P) && a < |s.fire| && s.fire[a] != []
    ensures
      var d := DrainOf(s, a);
      DistinctEntries(d.fire) && |d.linger| <= |d.fire| && forall e :: e in d.linger ==> e in d.fire
  {
    assert ActorBlocks(s, a) && LingerOk(s, a) && !MayRelease(s, a);
    hide Inv;
    var d := DrainOf(s, a);
    forall i | 0 <= i < |s.linger[a]|
      ensures d.linger[i] in d.fire && s.linger[a][i] in IdsOf(d.fire)
    {
      LingerIsWaiting(s, a, i);
    }
    NoMoreThan(s.linger[a], IdsOf(d.fire));
  }

  lemma LingerIsWaiting(s: State, a: nat, i: nat)
    requires a < |s.fire| == |s.linger| && s.fire[a] != [] && i < |s.linger[a]|
    requires FireListOk(s.fire[a]) && LingerOk(s, a) && !MayRelease(s, a)
    ensures DrainOf(s, a).linger[i] in DrainOf(s, a).fire && s.linger[a][i] in IdsOf(DrainOf(s, a).fire)
  {
    var id, d := s.linger[a][i], DrainOf(s, a);
    assert id in s.linger[a] && LingersIn(s.fire[a], id);
    var k :| 0 <= k < |s.fire[a]| && s.fire[a][k].id == id && !InFlight(s.fire[a][k]);
    assert Position(s.fire[a], id) == k;
    assert d.fire[k - 1] == Entries(s.fire[a])[k] == d.linger[i];
    assert IdsOf(d.fire)[k - 1] == id;
  }

  // An actor never has more firings under way than there are packets, so with
  // the single packet the program injects, or with two, the lists are in order.
  lemma TwoPacketsInOrder(g: Graph, s: State, P: int, a: nat)
    requires Inv(g, s, P) && P <= 2 && a < |s.fire| && s.fire[a] != []
    ensures |s.fire[a]| <= P && InOrder(s, a)
  {
    FlowBounds(g, s, P, a);
    assert ActorFlow(g, s, a);
    WaitingBehindOldest(g, s, P, a);
    var d := DrainOf(s, a);
    if d.linger != [] { assert d.linger[0] in d.linger; }
  }
}
