// How many tokens there are for a data cell, and how the FIFOs and lists share
// them: what one list loses another gains.
module TokenShares {
  import opened TokenFifo
  import opened Dataflow
  import opened TokenFlow
  import opened SchedulerSteps
  import opened SchedulerInvariants

  // -------------------------------------------------------------------- sums

  function Total(ns: seq<nat>): nat {
    if ns == [] then 0 else Total(ns[..|ns| - 1]) + ns[|ns| - 1]
  }

  lemma {:induction false} TotalUpdate(ns: seq<nat>, i: nat, n: nat)
    requires i < |ns|
    ensures Total(ns[i := n]) + ns[i] == Total(ns) + n
    decreases |ns|
  {
    var m := |ns| - 1;
    if i < m {
      assert ns[i := n][..m] == ns[..m][i := n];
      TotalUpdate(ns[..m], i, n);
    } else {
      assert ns[i := n][..m] == ns[..m];
    }
  }

  lemma TotalAppend(ns: seq<nat>, n: nat)
    ensures Total(ns + [n]) == Total(ns) + n
  {
    assert (ns + [n])[..|ns|] == ns;
  }

  lemma {:induction false} TotalRemove(ns: seq<nat>, i: nat)
    requires i < |ns|
    ensures Total(RemoveAt(ns, i)) + ns[i] == Total(ns)
    decreases |ns|
  {
    var m := |ns| - 1;
    if i < m {
      assert RemoveAt(ns, i) == RemoveAt(ns[..m], i) + [ns[m]];
      TotalAppend(RemoveAt(ns[..m], i), ns[m]);
      TotalRemove(ns[..m], i);
      assert RemoveAt(ns[..m], i) + [ns[m]] == RemoveAt(ns, i);
    } else {
      assert RemoveAt(ns, i) == ns[..m];
    }
  }

  lemma TotalHas(ns: seq<nat>, i: nat)
    requires i < |ns|
    ensures ns[i] <= Total(ns)
  {
    TotalUpdate(ns, i, 0);
  }

  lemma {:induction false} TotalZero(ns: seq<nat>)
    requires forall i :: 0 <= i < |ns| ==> ns[i] == 0
    ensures Total(ns) == 0
  {
    if ns != [] { TotalZero(ns[..|ns| - 1]); }
  }

  // How often d occurs.
  function Occurs(ds: seq<nat>, d: nat): nat {
    if ds == [] then 0 else Occurs(ds[..|ds| - 1], d) + (if ds[|ds| - 1] == d then 1 else 0)
  }

  lemma {:induction false} OccursSplit(xs: seq<nat>, ys: seq<nat>, d: nat)
    ensures Occurs(xs + ys, d) == Occurs(xs, d) + Occurs(ys, d)
    decreases |ys|
  {
    if ys == [] {
      assert xs + ys == xs;
    } else {
      assert (xs + ys)[..|xs + ys| - 1] == xs + ys[..|ys| - 1];
      OccursSplit(xs, ys[..|ys| - 1], d);
    }
  }

  // -------------------------------------------------------- where tokens are

  // How many tokens for data cell d wait in a FIFO.
  function TokensFor(ts: seq<Token>, d: nat): nat {
    if ts == [] then 0 else TokensFor(ts[..|ts| - 1], d) + (if ts[|ts| - 1] == Real(d) then 1 else 0)
  }

  function InFifo(f: Fifo<Token>, d: nat): nat {
    if 0 <= f.rptr <= f.wptr <= |f.cells| then TokensFor(f.cells[f.rptr..f.wptr], d) else 0
  }

  function InFifos(fs: seq<Fifo<Token>>, d: nat): nat {
    Total(seq(|fs|, e requires 0 <= e < |fs| => InFifo(fs[e], d)))
  }

  // In the entries of the ready list.
  function InReady(ready: seq<Ready>, d: nat): nat {
    Total(seq(|ready|, i requires 0 <= i < |ready| => Occurs(ready[i].deps, d)))
  }

  // How many tokens for d these results will become when they are passed on.
  function InResults(rows: seq<seq<nat>>, results: seq<nat>, d: nat): nat
    decreases |rows|
  {
    if rows == [] || results == [] then 0
    else (if results[0] == d then |rows[0]| else 0) + InResults(rows[1..], results[1..], d)
  }

  // What a firing holds: its argument tokens until they are loaded, nothing
  // while it runs, its results' tokens-to-be until they are passed on.
  function InFiring(rows: seq<seq<nat>>, f: Firing, d: nat): nat {
    match f.stage
    case Loading(deps) => Occurs(deps, d)
    case Running(_) => 0
    case Returning(results) => InResults(rows, results, d)
    case Lingering(results) => InResults(rows, results, d)
  }

  function InFireList(rows: seq<seq<nat>>, fire: seq<Firing>, d: nat): nat {
    Total(seq(|fire|, k requires 0 <= k < |fire| => InFiring(rows, fire[k], d)))
  }

  function InFirings(g: Graph, fire: seq<seq<Firing>>, d: nat): nat
    requires |fire| == |g.actors|
  {
    Total(seq(|fire|, a requires 0 <= a < |fire| => InFireList(g.actors[a].outs, fire[a], d)))
  }

  // All tokens there are, or are still to be, for data cell d.
  function Shares(g: Graph, s: State, d: nat): nat
    requires |s.fire| == |g.actors|
  {
    InFifos(s.fifos, d) + InReady(s.ready, d) + InFirings(g, s.fire, d)
  }

  // ------------------------------------------------------------------- FIFOs

  lemma {:induction false} TokensHead(ts: seq<Token>, d: nat)
    requires ts != []
    ensures TokensFor(ts, d) == (if ts[0] == Real(d) then 1 else 0) + TokensFor(ts[1..], d)
    decreases |ts|
  {
    var n := |ts| - 1;
    if n > 0 {
      TokensHead(ts[..n], d);
      assert ts[..n][1..] == ts[1..][..n - 1];
    } else {
      assert ts[..0] == [] && ts[1..] == [];
    }
  }

  lemma FifosUpdate(fs: seq<Fifo<Token>>, e: nat, f: Fifo<Token>, d: nat)
    requires e < |fs|
    ensures InFifos(fs[e := f], d) + InFifo(fs[e], d) == InFifos(fs, d) + InFifo(f, d)
  {
    var fs' := fs[e := f];
    var ns := seq(|fs|, i requires 0 <= i < |fs| => InFifo(fs[i], d));
    assert ns[e := InFifo(f, d)] == seq(|fs'|, i requires 0 <= i < |fs'| => InFifo(fs'[i], d));
    TotalUpdate(ns, e, InFifo(f, d));
  }

  lemma DropTokens(f: Fifo<Token>, d: nat)
    requires InRange(f) && f.rptr < f.wptr
    ensures InFifo(f, d) == (if Head(f) == Real(d) then 1 else 0) + InFifo(Drop(f), d)
  {
    var ts := f.cells[f.rptr..f.wptr];
    TokensHead(ts, d);
    assert ts[1..] == f.cells[f.rptr + 1..f.wptr];
  }

  lemma PutTokens(f: Fifo<Token>, t: Token, d: nat)
    requires InRange(f) && f.rptr <= f.wptr < 8
    ensures InFifo(Put(f, t), d) == InFifo(f, d) + (if t == Real(d) then 1 else 0)
  {
    PutAppends(f, t);
    var ts := f.cells[f.rptr..f.wptr];
    hide Put, Size;
    assert (ts + [t])[..|ts|] == ts;
  }

  lemma PutAppends(f: Fifo<Token>, t: Token)
    requires InRange(f) && f.rptr <= f.wptr < 8
    ensures
      var r := Put(f, t);
      r.rptr == f.rptr && r.wptr == f.wptr + 1 <= |r.cells| && r.cells[r.rptr..r.wptr] == f.cells[f.rptr..f.wptr] + [t]
  {
  }

  // Taken tokens move from the FIFOs to the entry that holds them.
  lemma {:induction false} DropRowTokens(fs: seq<Fifo<Token>>, row: seq<nat>, d: nat)
    requires RowIn(fs, row) && DistinctRow(row)
    requires forall i :: 0 <= i < |row| ==> fs[row[i]].rptr < fs[row[i]].wptr
    ensures InFifos(fs, d) == Occurs(RealHeads(fs, row), d) + InFifos(DropRow(fs, row), d)
    decreases |row|
  {
    if row != [] {
      var e, rest := row[0], row[1..];
      var fs' := fs[e := Drop(fs[e])];
      DistinctTail(row);
      assert forall i :: 0 <= i < |rest| ==> rest[i] == row[i + 1] && rest[i] in rest && fs'[rest[i]] == fs[rest[i]];
      DropRowTokens(fs', rest, d);
      SameHeads(fs, fs', rest);
      FifosUpdate(fs, e, Drop(fs[e]), d);
      DropTokens(fs[e], d);
      OccursSplit(DataOf(Head(fs[e])), RealHeads(fs, rest), d);
      assert Occurs([], d) == 0;
      hide Drop, DropRow, Head, InFifo, InFifos, Occurs;
      assert Occurs(DataOf(Head(fs[e])), d) == if Head(fs[e]) == Real(d) then 1 else 0 by { OneOccurs(Head(fs[e]), d); }
    }
  }

  lemma OneOccurs(t: Token, d: nat)
    ensures Occurs(DataOf(t), d) == if t == Real(d) then 1 else 0
  {
    if t.Real? { assert DataOf(t)[..0] == []; }
  }

  lemma {:induction false} SameHeads(fs: seq<Fifo<Token>>, fs': seq<Fifo<Token>>, row: seq<nat>)
    requires RowIn(fs, row) && RowIn(fs', row)
    requires forall i :: 0 <= i < |row| ==> !Empty(fs[row[i]]) && fs'[row[i]] == fs[row[i]]
    ensures RealHeads(fs, row) == RealHeads(fs', row)
    decreases |row|
  {
    if row != [] { SameHeads(fs, fs', row[1..]); }
  }

  // One token goes to each edge of a row.
  lemma {:induction false} PutRowTokens(fs: seq<Fifo<Token>>, row: seq<nat>, t: Token, d: nat)
    requires RowIn(fs, row) && DistinctRow(row)
    requires forall i :: 0 <= i < |row| ==> fs[row[i]].rptr <= fs[row[i]].wptr < 8
    ensures InFifos(PutRow(fs, row, t), d) == InFifos(fs, d) + (if t == Real(d) then |row| else 0)
    decreases |row|
  {
    if row != [] {
      var e, rest := row[0], row[1..];
      var fs' := fs[e := Put(fs[e], t)];
      DistinctTail(row);
      assert forall i :: 0 <= i < |rest| ==> rest[i] == row[i + 1] && rest[i] in rest && fs'[rest[i]] == fs[rest[i]];
      PutRowTokens(fs', rest, t, d);
      FifosUpdate(fs, e, Put(fs[e], t), d);
      PutTokens(fs[e], t, d);
    }
  }

  // All edges of the rows have room.
  ghost predicate Room(fs: seq<Fifo<Token>>, rows: seq<seq<nat>>) {
    forall e :: 0 <= e < |fs| && InRow(rows, e) ==> fs[e].rptr <= fs[e].wptr < 8
  }

  lemma RoomLeft(fs: seq<Fifo<Token>>, rows: seq<seq<nat>>, t: Token)
    requires RowsIn(fs, rows) && rows != [] && DistinctRows(rows) && Room(fs, rows) && RowIn(fs, rows[0])
    ensures Room(PutRow(fs, rows[0], t), rows[1..])
  {
    var fs' := PutRow(fs, rows[0], t);
    forall e | 0 <= e < |fs'| && InRow(rows[1..], e)
      ensures fs'[e].rptr <= fs'[e].wptr < 8
    {
      RowsTail(rows, e);
      assert DistinctRow(rows[0]);
      PutRowAt(fs, rows[0], t, e);
    }
  }

  // Results become tokens, one for each edge of their rows; the rows without a
  // result get pseudo tokens, which stand for no data.
  lemma {:induction false} PutResultsTokens(fs: seq<Fifo<Token>>, rows: seq<seq<nat>>, results: seq<nat>, d: nat)
    requires RowsIn(fs, rows) && AllInRange(fs) && DistinctRows(rows) && Room(fs, rows)
    ensures InFifos(PutResults(fs, rows, results), d) == InFifos(fs, d) + InResults(rows, results, d)
    decreases |rows|
  {
    if rows != [] {
      var t := TokenFor(results, 0);
      var rest := if results == [] then [] else results[1..];
      RowsInTail(fs, rows, t);
      RowsTail(rows, 0);
      RoomLeft(fs, rows, t);
      assert DistinctRow(rows[0]);
      FirstRowRoom(fs, rows);
      PutRowTokens(fs, rows[0], t, d);
      PutResultsTokens(PutRow(fs, rows[0], t), rows[1..], rest, d);
    }
  }

  lemma FirstRowRoom(fs: seq<Fifo<Token>>, rows: seq<seq<nat>>)
    requires rows != [] && RowIn(fs, rows[0]) && Room(fs, rows)
    ensures forall i :: 0 <= i < |rows[0]| ==> fs[rows[0][i]].rptr <= fs[rows[0][i]].wptr < 8
  {
    forall i | 0 <= i < |rows[0]|
      ensures InRow(rows, rows[0][i])
    {
      assert rows[0][i] in rows[0];
    }
  }

  // ------------------------------------------------------- lists of firings

  lemma ReadyAppend(ready: seq<Ready>, r: Ready, d: nat)
    ensures InReady(ready + [r], d) == InReady(ready, d) + Occurs(r.deps, d)
  {
    var more := ready + [r];
    var ns := seq(|ready|, i requires 0 <= i < |ready| => Occurs(ready[i].deps, d));
    assert ns + [Occurs(r.deps, d)] == seq(|more|, i requires 0 <= i < |more| => Occurs(more[i].deps, d));
    TotalAppend(ns, Occurs(r.deps, d));
  }

  lemma ReadyRemove(ready: seq<Ready>, r: nat, d: nat)
    requires r < |ready|
    ensures InReady(ready, d) == InReady(RemoveAt(ready, r), d) + Occurs(ready[r].deps, d)
  {
    var less := RemoveAt(ready, r);
    var ns := seq(|ready|, i requires 0 <= i < |ready| => Occurs(ready[i].deps, d));
    assert RemoveAt(ns, r) == seq(|less|, i requires 0 <= i < |less| => Occurs(less[i].deps, d));
    TotalRemove(ns, r);
  }

  lemma FireUpdate(rows: seq<seq<nat>>, fire: seq<Firing>, k: nat, f: Firing, d: nat)
    requires k < |fire|
    ensures InFireList(rows, fire[k := f], d) + InFiring(rows, fire[k], d) == InFireList(rows, fire, d) + InFiring(rows, f, d)
  {
    var fire' := fire[k := f];
    var ns := seq(|fire|, i requires 0 <= i < |fire| => InFiring(rows, fire[i], d));
    assert ns[k := InFiring(rows, f, d)] == seq(|fire'|, i requires 0 <= i < |fire'| => InFiring(rows, fire'[i], d));
    TotalUpdate(ns, k, InFiring(rows, f, d));
  }

  lemma FireAppend(rows: seq<seq<nat>>, fire: seq<Firing>, f: Firing, d: nat)
    ensures InFireList(rows, fire + [f], d) == InFireList(rows, fire, d) + InFiring(rows, f, d)
  {
    var more := fire + [f];
    var ns := seq(|fire|, i requires 0 <= i < |fire| => InFiring(rows, fire[i], d));
    assert ns + [InFiring(rows, f, d)] == seq(|more|, i requires 0 <= i < |more| => InFiring(rows, more[i], d));
    TotalAppend(ns, InFiring(rows, f, d));
  }

  lemma FireTail(rows: seq<seq<nat>>, fire: seq<Firing>, d: nat)
    requires fire != []
    ensures InFireList(rows, fire, d) == InFireList(rows, fire[1..], d) + InFiring(rows, fire[0], d)
  {
    var less := fire[1..];
    var ns := seq(|fire|, i requires 0 <= i < |fire| => InFiring(rows, fire[i], d));
    assert RemoveAt(ns, 0) == seq(|less|, i requires 0 <= i < |less| => InFiring(rows, less[i], d));
    TotalRemove(ns, 0);
  }

  lemma FiresUpdate(g: Graph, fire: seq<seq<Firing>>, a: nat, fs: seq<Firing>, d: nat)
    requires |fire| == |g.actors| && a < |fire|
    ensures
      InFirings(g, fire[a := fs], d) + InFireList(g.actors[a].outs, fire[a], d)
      == InFirings(g, fire, d) + InFireList(g.actors[a].outs, fs, d)
  {
    var fire' := fire[a := fs];
    var n := InFireList(g.actors[a].outs, fs, d);
    var ns := seq(|fire|, i requires 0 <= i < |fire| => InFireList(g.actors[i].outs, fire[i], d));
    assert ns[a := n] == seq(|fire'|, i requires 0 <= i < |fire'| => InFireList(g.actors[i].outs, fire'[i], d));
    TotalUpdate(ns, a, n);
  }

  // A firing changes its stage.
  lemma RestageShares(g: Graph, s: State, t: State, a: nat, k: nat, d: nat)
    requires |s.fire| == |g.actors| == |t.fire| && a < |s.fire| && k < |s.fire[a]| == |t.fire[a]|
    requires t.fifos == s.fifos && t.ready == s.ready
    requires t.fire == s.fire[a := s.fire[a][k := t.fire[a][k]]]
    ensures
      var rows := g.actors[a].outs;
      Shares(g, t, d) + InFiring(rows, s.fire[a][k], d) == Shares(g, s, d) + InFiring(rows, t.fire[a][k], d)
  {
    FireUpdate(g.actors[a].outs, s.fire[a], k, t.fire[a][k], d);
    FiresUpdate(g, s.fire, a, t.fire[a], d);
  }
}
