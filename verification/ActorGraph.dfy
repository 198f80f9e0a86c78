// Building the actor graph: slots of eleven pointers, filled by edge_make,
// assign_root and assign_sink (src/actor_create.c).
module ActorGraph {
  import opened Dataflow
  import opened RandomDag

  const SLOTS := 11

  // One pointer of an actor's in[] or out[][]: NULL or the FIFO of an edge.
  datatype Slot = Null | Joined(e: nat)

  // Edges are numbered as they are made; 0 is kept for the root's input.
  datatype Wiring = Wiring(ins: seq<seq<Slot>>, outs: seq<seq<seq<Slot>>>, src: seq<int>, snk: seq<int>)

  function FirstNull(slots: seq<Slot>): (m: nat)
    ensures m <= |slots|
    ensures forall i :: 0 <= i < m ==> slots[i].Joined?
    ensures m < |slots| ==> slots[m].Null?
  {
    if slots == [] || slots[0].Null? then 0 else 1 + FirstNull(slots[1..])
  }

  function RowCount(rows: seq<seq<Slot>>): (r: nat)
    ensures r <= |rows|
    ensures forall d :: 0 <= d < r ==> FirstNull(rows[d]) > 0
    ensures r < |rows| ==> FirstNull(rows[r]) == 0
  {
    if rows == [] || FirstNull(rows[0]) == 0 then 0 else 1 + RowCount(rows[1..])
  }

  // What a loop that stops at the first NULL sees.
  function UpToNull(slots: seq<Slot>): seq<nat> {
    seq(FirstNull(slots), i requires 0 <= i < FirstNull(slots) => slots[i].e)
  }

  function RowsUpToNull(rows: seq<seq<Slot>>): seq<seq<nat>> {
    seq(RowCount(rows), d requires 0 <= d < RowCount(rows) => UpToNull(rows[d]))
  }

  function ToGraph(w: Wiring, compute: (nat, nat, seq<int>) -> int): Graph
    requires |w.ins| == |w.outs|
  {
    Graph(seq(|w.ins|, a requires 0 <= a < |w.ins| => Actor(UpToNull(w.ins[a]), RowsUpToNull(w.outs[a]))),
          w.src, w.snk, compute)
  }

  // ------------------------------------------------------------ soundness

  predicate Holds(slots: seq<Slot>, i: nat, e: nat) { i < |slots| && slots[i] == Joined(e) }

  predicate HoldsRow(rows: seq<seq<Slot>>, d: nat, j: nat, e: nat) { d < |rows| && Holds(rows[d], j, e) }

  ghost predicate Slotted(w: Wiring) {
    && |w.ins| == |w.outs| && |w.src| == |w.snk| > 0
    && (forall a :: 0 <= a < |w.ins| ==> |w.ins[a]| == SLOTS && |w.outs[a]| == SLOTS)
    && (forall a, d :: 0 <= a < |w.outs| && 0 <= d < SLOTS ==> |w.outs[a][d]| == SLOTS)
  }

  // Pointers and edges agree: every in slot's edge ends here, in one slot, and
  // every edge with an end is in a slot there; likewise for the out slots.
  ghost predicate InsSound(w: Wiring) {
    && (forall a, i: nat, e: nat :: 0 <= a < |w.ins| && Holds(w.ins[a], i, e) ==> e < |w.snk| && w.snk[e] == a)
    && (forall a, i: nat, j: nat, e: nat :: 0 <= a < |w.ins| && Holds(w.ins[a], i, e) && Holds(w.ins[a], j, e) ==> i == j)
    && (forall e :: 0 <= e < |w.snk| ==> -1 <= w.snk[e] < |w.ins|)
    && (forall e :: 0 <= e < |w.snk| && w.snk[e] >= 0 ==> SomeSlot(w.ins[w.snk[e]], e))
  }

  ghost predicate SomeSlot(slots: seq<Slot>, e: nat) { exists i: nat :: Holds(slots, i, e) }

  ghost predicate SomeRow(rows: seq<seq<Slot>>, e: nat) { exists d: nat, j: nat :: HoldsRow(rows, d, j, e) }

  ghost predicate OutsSound(w: Wiring) {
    && (forall a, d: nat, j: nat, e: nat :: 0 <= a < |w.outs| && HoldsRow(w.outs[a], d, j, e) ==> e < |w.src| && w.src[e] == a)
    && (forall a, d: nat, j: nat, d': nat, j': nat, e: nat :: 0 <= a < |w.outs| && HoldsRow(w.outs[a], d, j, e) && HoldsRow(w.outs[a], d', j', e) ==>
          d == d' && j == j')
    && (forall e :: 0 <= e < |w.src| ==> -1 <= w.src[e] < |w.outs|)
    && (forall e :: 0 <= e < |w.src| && w.src[e] >= 0 ==> SomeRow(w.outs[w.src[e]], e))
  }

  ghost predicate Sound(w: Wiring) { Slotted(w) && InsSound(w) && OutsSound(w) }

  // A finished graph: no gaps, nothing without input or output, actors created
  // before their successors, and only the root's input has no producer.
  ghost predicate Packed(slots: seq<Slot>) { forall i :: FirstNull(slots) <= i < |slots| ==> slots[i].Null? }

  ghost predicate PackedRows(rows: seq<seq<Slot>>) {
    && (forall d :: 0 <= d < |rows| ==> Packed(rows[d]))
    && (forall d :: RowCount(rows) <= d < |rows| ==> FirstNull(rows[d]) == 0)
  }

  ghost predicate Complete(w: Wiring)
    requires Slotted(w)
  {
    && |w.ins| > 0
    && (forall a :: 0 <= a < |w.ins| ==> Packed(w.ins[a]) && FirstNull(w.ins[a]) > 0)
    && (forall a :: 0 <= a < |w.outs| ==> PackedRows(w.outs[a]) && RowCount(w.outs[a]) > 0)
    && (forall e :: 0 <= e < |w.src| ==> (w.src[e] < 0 <==> e == 0) && (w.snk[e] >= 0 ==> w.src[e] < w.snk[e]))
  }

  lemma InRowIff(rows: seq<seq<Slot>>, e: nat)
    requires PackedRows(rows)
    ensures InRow(RowsUpToNull(rows), e) <==> SomeRow(rows, e)
  {
    var r := RowsUpToNull(rows);
    if InRow(r, e) {
      var d :| 0 <= d < |r| && e in r[d];
      var j :| 0 <= j < |r[d]| && r[d][j] == e;
      assert HoldsRow(rows, d, j, e);
    }
    if SomeRow(rows, e) {
      var d: nat, j: nat :| HoldsRow(rows, d, j, e);
      assert r[d][j] == e;
    }
  }

  // The finished graph is what the scheduler's theorems ask for.
  lemma FinishedGraph(w: Wiring, compute: (nat, nat, seq<int>) -> int)
    requires Sound(w) && Complete(w)
    ensures WellFormed(ToGraph(w, compute))
  {
    var g := ToGraph(w, compute);
    forall a | 0 <= a < |g.actors|
      ensures WellFormedActor(g, a)
    {
      FinishedActor(w, compute, a);
    }
    forall e | 0 <= e < |g.snk| && g.snk[e] >= 0
      ensures e in g.actors[g.snk[e]].ins
    {
      var a := w.snk[e];
      assert SomeSlot(w.ins[a], e);
      var i: nat :| Holds(w.ins[a], i, e);
      assert g.actors[a].ins[i] == e;
    }
    forall e | 0 <= e < |g.src| && g.src[e] >= 0
      ensures InRow(g.actors[g.src[e]].outs, e)
    {
      assert SomeRow(w.outs[w.src[e]], e);
      InRowIff(w.outs[w.src[e]], e);
    }
    assert |g.src| == |g.snk| > 0 && |g.actors| > 0;
    assert forall e :: 0 <= e < |g.src| && g.snk[e] >= 0 ==> g.src[e] < g.snk[e];
  }

  lemma FinishedActor(w: Wiring, compute: (nat, nat, seq<int>) -> int, a: nat)
    requires Sound(w) && Complete(w) && a < |w.ins|
    ensures WellFormedActor(ToGraph(w, compute), a)
  {
    var g := ToGraph(w, compute);
    var r, slots, rows := g.actors[a], w.ins[a], w.outs[a];
    assert forall i :: 0 <= i < |r.ins| ==> Holds(slots, i, r.ins[i]);
    assert forall d, j :: 0 <= d < |r.outs| && 0 <= j < |r.outs[d]| ==> HoldsRow(rows, d, j, r.outs[d][j]);
    assert DistinctRow(r.ins);
    forall d | 0 <= d < |r.outs|
      ensures DistinctRow(r.outs[d]) && MadeBy(g, r.outs[d], a)
    {
      forall e | e in r.outs[d]
        ensures e < |g.src| && g.src[e] == a
      {
        var j :| 0 <= j < |r.outs[d]| && r.outs[d][j] == e;
        assert HoldsRow(rows, d, j, e);
      }
    }
    forall d, d', j, j' | 0 <= d < d' < |r.outs| && 0 <= j < |r.outs[d]| && 0 <= j' < |r.outs[d']|
      ensures r.outs[d][j] != r.outs[d'][j']
    {
      assert HoldsRow(rows, d, j, r.outs[d][j]) && HoldsRow(rows, d', j', r.outs[d'][j']);
    }
    assert DistinctRows(r.outs);
    forall e | e in r.ins
      ensures e < |g.snk| && g.snk[e] == a
    {
      var i :| 0 <= i < |r.ins| && r.ins[i] == e;
      assert Holds(slots, i, e);
    }
  }

  // ------------------------------------------------------------- operations

  // A new FIFO from result row d, slot j of actor u to in slot i of actor v; no
  // out slot when the row is full.
  function Connect(w: Wiring, u: nat, d: nat, j: nat, v: nat, i: nat): Wiring
    requires u < |w.outs| && d < |w.outs[u]| && j <= |w.outs[u][d]| && v < |w.ins| && i < |w.ins[v]|
  {
    var e := |w.src|;
    var w1 := w.(ins := w.ins[v := w.ins[v][i := Joined(e)]], snk := w.snk + [v]);
    if j < |w.outs[u][d]| then
      w1.(outs := w.outs[u := w.outs[u][d := w.outs[u][d][j := Joined(e)]]], src := w.src + [u])
    else w1.(src := w.src + [-1])
  }

  lemma ConnectKeepsIns(w: Wiring, u: nat, d: nat, j: nat, v: nat, i: nat)
    requires Slotted(w) && InsSound(w) && u < |w.outs| && d < SLOTS && j <= SLOTS && v < |w.ins| && i < SLOTS
    requires w.ins[v][i].Null?
    ensures Slotted(Connect(w, u, d, j, v, i)) && InsSound(Connect(w, u, d, j, v, i))
  {
    var w1 := Connect(w, u, d, j, v, i);
    forall a, x: nat, e: nat | 0 <= a < |w1.ins| && Holds(w1.ins[a], x, e)
      ensures e < |w1.snk| && w1.snk[e] == a
      ensures (a == v && x == i && e == |w.src|) || Holds(w.ins[a], x, e)
    {
      if !(a == v && x == i) { assert Holds(w.ins[a], x, e); }
    }
    forall e | 0 <= e < |w1.snk| && w1.snk[e] >= 0
      ensures SomeSlot(w1.ins[w1.snk[e]], e)
    {
      if e == |w.snk| {
        assert Holds(w1.ins[v], i, e);
      } else {
        var x: nat :| Holds(w.ins[w.snk[e]], x, e);
        assert Holds(w1.ins[w.snk[e]], x, e);
      }
    }
  }

  lemma ConnectKeepsOuts(w: Wiring, u: nat, d: nat, j: nat, v: nat, i: nat)
    requires Slotted(w) && OutsSound(w) && u < |w.outs| && d < SLOTS && j <= SLOTS && v < |w.ins| && i < SLOTS
    requires j < SLOTS ==> w.outs[u][d][j].Null?
    ensures OutsSound(Connect(w, u, d, j, v, i))
  {
    var w1 := Connect(w, u, d, j, v, i);
    forall a, x: nat, y: nat, e: nat | 0 <= a < |w1.outs| && HoldsRow(w1.outs[a], x, y, e)
      ensures e < |w1.src| && w1.src[e] == a
      ensures (a == u && x == d && y == j && e == |w.src|) || HoldsRow(w.outs[a], x, y, e)
    {
      if !(a == u && x == d && y == j) { assert HoldsRow(w.outs[a], x, y, e); }
    }
    forall e | 0 <= e < |w1.src| && w1.src[e] >= 0
      ensures SomeRow(w1.outs[w1.src[e]], e)
    {
      if e == |w.src| {
        assert HoldsRow(w1.outs[u], d, j, e);
      } else {
        assert SomeRow(w.outs[w.src[e]], e);
        var x: nat, y: nat :| HoldsRow(w.outs[w.src[e]], x, y, e);
        assert HoldsRow(w1.outs[w.src[e]], x, y, e);
      }
    }
  }

  // The sink's output, which nobody reads.
  function WithOutput(w: Wiring, a: nat): Wiring
    requires Slotted(w) && a < |w.outs|
  {
    w.(outs := w.outs[a := w.outs[a][0 := w.outs[a][0][0 := Joined(|w.src|)]]], src := w.src + [a], snk := w.snk + [-1])
  }

  // The root's input.  It takes slot 0 whatever was there.
  function WithInput(w: Wiring, a: nat): Wiring
    requires Slotted(w) && a < |w.ins|
  {
    w.(ins := w.ins[a := w.ins[a][0 := Joined(0)]], snk := w.snk[0 := a])
  }

  lemma WithOutputSound(w: Wiring, a: nat)
    requires Sound(w) && a < |w.outs| && w.outs[a][0][0].Null?
    ensures Sound(WithOutput(w, a))
  {
    var w1 := WithOutput(w, a);
    forall b, x: nat, y: nat, e: nat | 0 <= b < |w1.outs| && HoldsRow(w1.outs[b], x, y, e)
      ensures e < |w1.src| && w1.src[e] == b
      ensures (b == a && x == 0 && y == 0 && e == |w.src|) || HoldsRow(w.outs[b], x, y, e)
    {
      if !(b == a && x == 0 && y == 0) { assert HoldsRow(w.outs[b], x, y, e); }
    }
    forall e | 0 <= e < |w1.src| && w1.src[e] >= 0
      ensures SomeRow(w1.outs[w1.src[e]], e)
    {
      if e == |w.src| {
        assert HoldsRow(w1.outs[a], 0, 0, e);
      } else {
        assert SomeRow(w.outs[w.src[e]], e);
        var x: nat, y: nat :| HoldsRow(w.outs[w.src[e]], x, y, e);
        assert HoldsRow(w1.outs[w.src[e]], x, y, e);
      }
    }
  }

  lemma WithInputSound(w: Wiring, a: nat)
    requires Sound(w) && a < |w.ins| && w.ins[a][0].Null? && w.snk[0] < 0
    ensures Sound(WithInput(w, a))
  {
    var w1 := WithInput(w, a);
    forall b, x: nat, e: nat | 0 <= b < |w1.ins| && Holds(w1.ins[b], x, e)
      ensures e < |w1.snk| && w1.snk[e] == b
      ensures (b == a && x == 0 && e == 0) || Holds(w.ins[b], x, e)
    {
      if !(b == a && x == 0) { assert Holds(w.ins[b], x, e); }
    }
    forall e | 0 <= e < |w1.snk| && w1.snk[e] >= 0
      ensures SomeSlot(w1.ins[w1.snk[e]], e)
    {
      if e == 0 {
        assert Holds(w1.ins[a], 0, 0);
      } else {
        assert SomeSlot(w.ins[w.snk[e]], e);
        var x: nat :| Holds(w.ins[w.snk[e]], x, e);
        assert Holds(w1.ins[w.snk[e]], x, e);
      }
    }
  }

  // n actors with all slots NULL.
  function Fresh(n: nat): Wiring {
    Wiring(seq(n, _ => seq(SLOTS, _ => Null)), seq(n, _ => seq(SLOTS, _ => seq(SLOTS, _ => Null))), [-1], [-1])
  }

  lemma FreshIsSound(n: nat)
    ensures Sound(Fresh(n))
  {
  }

  class Builder {
    var w: Wiring

    // actor_create for each of the n actors.
    constructor (n: nat)
      ensures w == Fresh(n)
    {
      w := Fresh(n);
    }

    // The first unused slot of a result row takes the FIFO.
    method NodeMakeOut(u: nat, d: nat) returns (j: nat)
      requires Slotted(w) && u < |w.outs| && d < SLOTS
      ensures j == FirstNull(w.outs[u][d])
    {
      for i := 0 to SLOTS
        invariant FirstNull(w.outs[u][d]) == i + FirstNull(w.outs[u][d][i..])
      {
        assert w.outs[u][d][i..][0] == w.outs[u][d][i] && w.outs[u][d][i..][1..] == w.outs[u][d][i + 1..];
        if w.outs[u][d][i].Null? { return i; }
      }
      return SLOTS;
    }

    method EdgeMake(u: nat, d: nat, v: nat, i: nat) returns (success: bool)
      requires Sound(w) && u < |w.outs| && d < SLOTS && v < |w.ins| && i < SLOTS && w.ins[v][i].Null?
      modifies this
      ensures Sound(w) && w == Connect(old(w), u, d, FirstNull(old(w).outs[u][d]), v, i)
      ensures success <==> FirstNull(old(w).outs[u][d]) < SLOTS
      ensures
        var was, e, j := old(w), |old(w).src|, FirstNull(old(w).outs[u][d]);
        && w.ins == was.ins[v := was.ins[v][i := Joined(e)]] && w.snk == was.snk + [v]
        && w.outs == (if success then was.outs[u := was.outs[u][d := was.outs[u][d][j := Joined(e)]]] else was.outs)
        && w.src == was.src + [if success then u else -1]
    {
      var j := NodeMakeOut(u, d);
      success := j < SLOTS;
      ConnectKeepsIns(w, u, d, j, v, i);
      ConnectKeepsOuts(w, u, d, j, v, i);
      w := Connect(w, u, d, j, v, i);
    }

    method AssignRoot(a: nat)
      requires Sound(w) && a < |w.ins|
      modifies this
      ensures w == WithInput(old(w), a)
      ensures
        w == old(w).(ins := old(w).ins[a := old(w).ins[a][0 := Joined(0)]], snk := old(w).snk[0 := a])
      ensures old(w).ins[a][0].Null? && old(w).snk[0] < 0 ==> Sound(w)
    {
      if w.ins[a][0].Null? && w.snk[0] < 0 { WithInputSound(w, a); }
      w := WithInput(w, a);
    }

    method AssignSink(a: nat)
      requires Sound(w) && a < |w.outs|
      modifies this
      ensures w == WithOutput(old(w), a)
      ensures
        var was, e := old(w), |old(w).src|;
        w == was.(outs := was.outs[a := was.outs[a][0 := was.outs[a][0][0 := Joined(e)]]], src := was.src + [a], snk := was.snk + [-1])
      ensures old(w).outs[a][0][0].Null? ==> Sound(w)
    {
      if w.outs[a][0][0].Null? { WithOutputSound(w, a); }
      w := WithOutput(w, a);
    }
  }

  // ---------------------------------------------------- the generated graphs

  ghost predicate FilledTo(slots: seq<Slot>, m: nat) { FirstNull(slots) == m && Packed(slots) }

  ghost predicate RowsFilledTo(rows: seq<seq<Slot>>, m: nat) {
    |rows| == SLOTS && FilledTo(rows[0], m) && forall d :: 1 <= d < |rows| ==> FilledTo(rows[d], 0)
  }

  // The first k edges are wired, each to the next free slots of result row 0.
  ghost predicate Wired(w: Wiring, n: nat, edges: seq<Edge>, k: nat)
    requires k <= |edges|
  {
    && Sound(w) && |w.ins| == n && |w.src| == k + 1 && w.src[0] == w.snk[0] == -1
    && (forall a :: 0 <= a < n ==> FilledTo(w.ins[a], InDegree(edges[..k], a)))
    && (forall a :: 0 <= a < n ==> RowsFilledTo(w.outs[a], OutDegree(edges[..k], a)))
    && (forall x :: 0 <= x < k ==> w.src[x + 1] == edges[x].tail && w.snk[x + 1] == edges[x].head)
  }

  lemma {:induction false} FillNext(slots: seq<Slot>, m: nat, e: nat)
    requires FilledTo(slots, m) && m < |slots|
    ensures FilledTo(slots[m := Joined(e)], m + 1)
  {
    var more := slots[m := Joined(e)];
    FirstNullIs(more, m + 1);
  }

  lemma {:induction false} FirstNullIs(slots: seq<Slot>, m: nat)
    requires m <= |slots| && (forall i :: 0 <= i < m ==> slots[i].Joined?) && (m < |slots| ==> slots[m].Null?)
    ensures FirstNull(slots) == m
  {
    if m > 0 {
      assert forall i :: 0 <= i < |slots| - 1 ==> slots[1..][i] == slots[i + 1];
      FirstNullIs(slots[1..], m - 1);
    }
  }

  lemma FreshIsWired(n: nat, edges: seq<Edge>)
    ensures Wired(Fresh(n), n, edges, 0)
  {
    FreshIsSound(n);
    assert edges[..0] == [];
  }

  // So far every edge has taken a slot at either end.
  lemma SlotsTaken(w: Wiring, n: nat, edges: seq<Edge>, k: nat, a: nat)
    requires k <= |edges| && Wired(w, n, edges, k) && a < n
    ensures FirstNull(w.ins[a]) == InDegree(edges[..k], a) <= |w.ins[a]| == SLOTS
    ensures |w.outs[a]| == SLOTS && FirstNull(w.outs[a][0]) == OutDegree(edges[..k], a) <= |w.outs[a][0]| == SLOTS
  {
    hide InsSound, OutsSound;
    assert FilledTo(w.ins[a], InDegree(edges[..k], a)) && RowsFilledTo(w.outs[a], OutDegree(edges[..k], a));
  }

  lemma ConnectNext(w: Wiring, n: nat, edges: seq<Edge>, k: nat)
    requires k < |edges| && Wired(w, n, edges, k) && edges[k].tail < n && edges[k].head < n
    requires InDegree(edges[..k], edges[k].head) < SLOTS && OutDegree(edges[..k], edges[k].tail) < SLOTS
    ensures
      var e := edges[k];
      var j, i := OutDegree(edges[..k], e.tail), InDegree(edges[..k], e.head);
      Wired(Connect(w, e.tail, 0, j, e.head, i), n, edges, k + 1)
  {
    var e := edges[k];
    var j, i := OutDegree(edges[..k], e.tail), InDegree(edges[..k], e.head);
    SlotsTaken(w, n, edges, k, e.tail);
    SlotsTaken(w, n, edges, k, e.head);
    hide FilledTo, RowsFilledTo;
    ConnectKeepsIns(w, e.tail, 0, j, e.head, i);
    ConnectKeepsOuts(w, e.tail, 0, j, e.head, i);
    ConnectAppends(w, e.tail, j, e.head, i);
    hide InsSound, OutsSound, Connect, FirstNull, InDegree, OutDegree;
    forall a | 0 <= a < n
      ensures FilledTo(Connect(w, e.tail, 0, j, e.head, i).ins[a], InDegree(edges[..k + 1], a))
      ensures RowsFilledTo(Connect(w, e.tail, 0, j, e.head, i).outs[a], OutDegree(edges[..k + 1], a))
    {
      ConnectFills(w, n, edges, k, a);
    }
  }

  lemma ConnectAppends(w: Wiring, u: nat, j: nat, v: nat, i: nat)
    requires Slotted(w) && u < |w.outs| && j < SLOTS && v < |w.ins| && i < SLOTS
    ensures
      var w1 := Connect(w, u, 0, j, v, i);
      w1.src == w.src + [u] && w1.snk == w.snk + [v] && |w1.ins| == |w.ins| && |w1.outs| == |w.outs|
  {
  }

  lemma ConnectFills(w: Wiring, n: nat, edges: seq<Edge>, k: nat, a: nat)
    requires k < |edges| && Wired(w, n, edges, k) && edges[k].tail < n && edges[k].head < n && a < n
    requires InDegree(edges[..k], edges[k].head) < SLOTS && OutDegree(edges[..k], edges[k].tail) < SLOTS
    ensures
      var e := edges[k];
      var w1 := Connect(w, e.tail, 0, OutDegree(edges[..k], e.tail), e.head, InDegree(edges[..k], e.head));
      FilledTo(w1.ins[a], InDegree(edges[..k + 1], a)) && RowsFilledTo(w1.outs[a], OutDegree(edges[..k + 1], a))
  {
    hide InsSound, OutsSound, Packed, FirstNull;
    var e := edges[k];
    var j, i := OutDegree(edges[..k], e.tail), InDegree(edges[..k], e.head);
    assert RowsFilledTo(w.outs[e.tail], j) && FilledTo(w.outs[e.tail][0], j) && FilledTo(w.ins[e.head], i);
    FillNext(w.ins[e.head], i, |w.src|);
    FillNext(w.outs[e.tail][0], j, |w.src|);
    assert edges[..k + 1] == edges[..k] + [e];
    DegreesOfAppend(edges[..k], e, a);
  }

  // Degrees only grow with the list.
  lemma {:induction false} DegreesGrow(edges: seq<Edge>, k: nat, a: nat)
    requires k <= |edges|
    ensures InDegree(edges[..k], a) <= InDegree(edges, a) && OutDegree(edges[..k], a) <= OutDegree(edges, a)
    ensures k < |edges| && edges[k].head == a ==> InDegree(edges[..k], a) < InDegree(edges, a)
    ensures k < |edges| && edges[k].tail == a ==> OutDegree(edges[..k], a) < OutDegree(edges, a)
    decreases |edges|
  {
    var n := |edges| - 1;
    if k < n {
      DegreesGrow(edges[..n], k, a);
      assert edges[..n][..k] == edges[..k];
    } else if k == |edges| {
      assert edges[..k] == edges;
    }
  }

  function Closed(w: Wiring, n: nat): Wiring
    requires Slotted(w) && |w.ins| == n > 0
  {
    WithOutput(WithInput(w, 0), n - 1)
  }

  // The root has no predecessor and the sink no successor to lose.
  lemma EndsAreFree(w: Wiring, n: nat, edges: seq<Edge>)
    requires Wired(w, n, edges, |edges|) && Forward(n, edges) && n > 0
    ensures FilledTo(w.ins[0], 0) && RowsFilledTo(w.outs[n - 1], 0) && FilledTo(w.outs[n - 1][0], 0)
    ensures w.ins[0][0].Null? && w.outs[n - 1][0][0].Null? && w.snk[0] < 0 && Sound(w) && |w.ins| == n
  {
    hide InsSound, OutsSound;
    assert edges[..|edges|] == edges;
    DegreeCounts(edges, 0);
    DegreeCounts(edges, n - 1);
    assert FilledTo(w.ins[0], InDegree(edges, 0)) && RowsFilledTo(w.outs[n - 1], OutDegree(edges, n - 1));
  }

  lemma ClosedIsSound(w: Wiring, n: nat, edges: seq<Edge>)
    requires Wired(w, n, edges, |edges|) && Forward(n, edges) && n > 0
    ensures Sound(Closed(w, n))
  {
    EndsAreFree(w, n, edges);
    CloseSound(w, n);
  }

  lemma CloseSound(w: Wiring, n: nat)
    requires Sound(w) && |w.ins| == n > 0 && w.ins[0][0].Null? && w.snk[0] < 0 && w.outs[n - 1][0][0].Null?
    ensures Sound(Closed(w, n))
  {
    hide InsSound, OutsSound;
    WithInputSound(w, 0);
    WithOutputSound(WithInput(w, 0), n - 1);
  }

  lemma CloseActor(w: Wiring, n: nat, edges: seq<Edge>, a: nat)
    requires Wired(w, n, edges, |edges|) && Forward(n, edges) && Repaired(n, edges) && n > 0 && a < n
    ensures Packed(Closed(w, n).ins[a]) && FirstNull(Closed(w, n).ins[a]) > 0
    ensures PackedRows(Closed(w, n).outs[a]) && RowCount(Closed(w, n).outs[a]) > 0
  {
    EndsAreFree(w, n, edges);
    assert edges[..|edges|] == edges;
    assert FilledTo(w.ins[a], InDegree(edges, a)) && RowsFilledTo(w.outs[a], OutDegree(edges, a));
    FillNext(w.ins[0], 0, 0);
    FillNext(w.outs[n - 1][0], 0, |w.src|);
    hide Sound, FirstNull, Packed;
    FirstRowOnly(Closed(w, n).outs[a]);
  }

  lemma CloseEdge(w: Wiring, n: nat, edges: seq<Edge>, e: nat)
    requires Wired(w, n, edges, |edges|) && Forward(n, edges) && n > 0 && e < |Closed(w, n).src|
    ensures |Closed(w, n).src| == |Closed(w, n).snk| == |edges| + 2
    ensures Closed(w, n).src[e] < 0 <==> e == 0
    ensures Closed(w, n).snk[e] >= 0 ==> Closed(w, n).src[e] < Closed(w, n).snk[e]
    ensures 0 < e <= |edges| ==> Closed(w, n).src[e] == edges[e - 1].tail && Closed(w, n).snk[e] == edges[e - 1].head
  {
    if 0 < e <= |edges| { assert w.src[e - 1 + 1] == edges[e - 1].tail && w.snk[e - 1 + 1] == edges[e - 1].head; }
  }

  // Edge k of the list is FIFO k + 1.
  ghost predicate EdgesKept(w: Wiring, edges: seq<Edge>) {
    && |w.src| == |w.snk| == |edges| + 2
    && (forall x :: 0 < x <= |edges| ==> w.src[x] == edges[x - 1].tail && w.snk[x] == edges[x - 1].head)
  }

  // With the root's input and the sink's output, a repaired graph is finished.
  lemma CloseGraph(w: Wiring, n: nat, edges: seq<Edge>)
    requires Wired(w, n, edges, |edges|) && Forward(n, edges) && Repaired(n, edges) && n > 0
    ensures Sound(Closed(w, n)) && Complete(Closed(w, n)) && EdgesKept(Closed(w, n), edges)
  {
    ClosedIsSound(w, n, edges);
    var w2 := Closed(w, n);
    forall e | 0 <= e < |w2.src|
      ensures |w2.src| == |w2.snk| == |edges| + 2
      ensures 0 < e <= |edges| ==> w2.src[e] == edges[e - 1].tail && w2.snk[e] == edges[e - 1].head
    {
      CloseEdge(w, n, edges, e);
    }
    assert |w2.src| > 0;
    hide Wired, Sound, Packed, FirstNull, WithInput, WithOutput;
    forall a | 0 <= a < n
      ensures Packed(w2.ins[a]) && FirstNull(w2.ins[a]) > 0 && PackedRows(w2.outs[a]) && RowCount(w2.outs[a]) > 0
    {
      CloseActor(w, n, edges, a);
    }
    forall e | 0 <= e < |w2.src|
      ensures (w2.src[e] < 0 <==> e == 0) && (w2.snk[e] >= 0 ==> w2.src[e] < w2.snk[e])
    {
      CloseEdge(w, n, edges, e);
    }
  }

  lemma FirstRowOnly(rows: seq<seq<Slot>>)
    requires |rows| == SLOTS && Packed(rows[0]) && FirstNull(rows[0]) > 0
    requires forall d :: 1 <= d < |rows| ==> FilledTo(rows[d], 0)
    ensures PackedRows(rows) && RowCount(rows) == 1
  {
    assert rows[1..][0] == rows[1];
  }

  // No node has more predecessors or successors than an actor has slots.
  ghost predicate Fits(n: nat, edges: seq<Edge>) {
    forall a :: 0 <= a < n ==> InDegree(edges, a) <= SLOTS && OutDegree(edges, a) <= SLOTS
  }

  // One edge_make of the generated program: there is a free slot at both ends, or
  // it fails.
  method WireNext(b: Builder, n: nat, edges: seq<Edge>, k: nat) returns (success: bool)
    requires Forward(n, edges) && k < |edges| && Wired(b.w, n, edges, k)
    modifies b
    ensures success <==> InDegree(edges[..k], edges[k].head) < SLOTS && OutDegree(edges[..k], edges[k].tail) < SLOTS
    ensures success ==> Wired(b.w, n, edges, k + 1)
  {
    var e := edges[k];
    SlotsTaken(b.w, n, edges, k, e.head);
    SlotsTaken(b.w, n, edges, k, e.tail);
    success := FirstNull(b.w.ins[e.head]) < SLOTS;
    if success {
      if FirstNull(b.w.outs[e.tail][0]) < SLOTS { ConnectNext(b.w, n, edges, k); }
      hide InsSound, OutsSound, FilledTo, RowsFilledTo;
      success := b.EdgeMake(e.tail, 0, e.head, FirstNull(b.w.ins[e.head]));
    }
  }

  // A graph that is wired as a whole fits, and in one that fits no edge fails.
  lemma WiredFits(w: Wiring, n: nat, edges: seq<Edge>)
    requires Wired(w, n, edges, |edges|)
    ensures Fits(n, edges)
  {
    assert edges[..|edges|] == edges;
    forall a | 0 <= a < n
      ensures InDegree(edges, a) <= SLOTS && OutDegree(edges, a) <= SLOTS
    {
      SlotsTaken(w, n, edges, |edges|, a);
    }
  }

  lemma FittingEdge(n: nat, edges: seq<Edge>, k: nat)
    requires Forward(n, edges) && k < |edges| && Fits(n, edges)
    ensures InDegree(edges[..k], edges[k].head) < SLOTS && OutDegree(edges[..k], edges[k].tail) < SLOTS
  {
    DegreesGrow(edges, k, edges[k].head);
    DegreesGrow(edges, k, edges[k].tail);
  }

  // Builds the graph of an edge list, as the generated program would: without a
  // failure exactly if no degree exceeds the number of slots.
  method BuildDag(n: nat, edges: seq<Edge>) returns (b: Builder, success: bool)
    requires n > 0 && Forward(n, edges) && Repaired(n, edges)
    ensures fresh(b) && (success <==> Fits(n, edges))
    ensures success ==> |b.w.ins| == n && Sound(b.w) && Complete(b.w) && EdgesKept(b.w, edges)
  {
    b := new Builder(n);
    FreshIsWired(n, edges);
    hide Wired, Fits, Sound, Complete, EdgesKept;
    for k := 0 to |edges|
      invariant fresh(b) && Wired(b.w, n, edges, k)
    {
      success := WireNext(b, n, edges, k);
      if !success {
        if Fits(n, edges) { FittingEdge(n, edges, k); }
        return;
      }
    }
    success := true;
    WiredFits(b.w, n, edges);
    Close(b, n, edges);
  }

  // The generated program's last two calls.
  method Close(b: Builder, n: nat, edges: seq<Edge>)
    requires Wired(b.w, n, edges, |edges|) && Forward(n, edges) && Repaired(n, edges) && n > 0
    modifies b
    ensures b.w == Closed(old(b.w), n) && |b.w.ins| == n && Sound(b.w) && Complete(b.w) && EdgesKept(b.w, edges)
  {
    hide Wired, InsSound, OutsSound, Complete, EdgesKept, FilledTo, RowsFilledTo, Forward, Repaired;
    EndsAreFree(b.w, n, edges);
    CloseGraph(b.w, n, edges);
    b.AssignRoot(0);
    b.AssignSink(n - 1);
  }

  // Whatever the random choices, the generated program either runs out of slots,
  // which it does exactly if a degree exceeds eleven and never with twelve actors,
  // or hands the scheduler a graph on which every run completes.
  method RandomTask(n: nat, coin: (nat, nat) -> bool) returns (b: Builder, ghost edges: seq<Edge>, success: bool)
    requires n > 0
    ensures fresh(b) && (success <==> Fits(n, edges)) && (n <= SLOTS + 1 ==> success)
    ensures success ==> |b.w.ins| == |b.w.outs| == n && Sound(b.w) && EdgesKept(b.w, edges)
    ensures success ==> forall compute :: WellFormed(ToGraph(b.w, compute))
  {
    var all, ins, outs, first := Generate(n, coin);
    edges := all;
    if n <= SLOTS + 1 { SmallFits(n, edges); }
    hide Fits;
    b, success := BuildDag(n, all);
    if success { AlwaysWellFormed(b.w); }
  }

  lemma AlwaysWellFormed(w: Wiring)
    requires Sound(w) && Complete(w)
    ensures forall compute :: WellFormed(ToGraph(w, compute))
  {
    forall compute
      ensures WellFormed(ToGraph(w, compute))
    {
      FinishedGraph(w, compute);
    }
  }

  lemma SmallFits(n: nat, edges: seq<Edge>)
    requires n <= SLOTS + 1 && Forward(n, edges) && NoDuplicates(edges)
    ensures Fits(n, edges)
  {
    forall a | 0 <= a < n
      ensures InDegree(edges, a) <= SLOTS && OutDegree(edges, a) <= SLOTS
    {
      DegreesFit(n, edges, a);
    }
  }
}
