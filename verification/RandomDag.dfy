// The random DAG generator: one pass that may add any forward edge, and two
// repair passes (task/generate_dag.py).
module RandomDag {
  datatype Edge = Edge(tail: nat, head: nat)

  ghost predicate Forward(n: nat, edges: seq<Edge>) {
    forall k :: 0 <= k < |edges| ==> edges[k].tail < edges[k].head < n
  }

  ghost predicate NoDuplicates(edges: seq<Edge>) {
    forall j, k :: 0 <= j < k < |edges| ==> edges[j] != edges[k]
  }

  // The true degrees.
  function InDegree(edges: seq<Edge>, v: nat): nat {
    if edges == [] then 0 else InDegree(edges[..|edges| - 1], v) + (if edges[|edges| - 1].head == v then 1 else 0)
  }

  function OutDegree(edges: seq<Edge>, v: nat): nat {
    if edges == [] then 0 else OutDegree(edges[..|edges| - 1], v) + (if edges[|edges| - 1].tail == v then 1 else 0)
  }

  ghost predicate DegreesRight(n: nat, edges: seq<Edge>, ins: seq<nat>, outs: seq<nat>) {
    && |ins| == |outs| == n
    && (forall v :: 0 <= v < n ==> ins[v] == InDegree(edges, v) && outs[v] == OutDegree(edges, v))
  }

  lemma DegreesOfAppend(edges: seq<Edge>, e: Edge, v: nat)
    ensures InDegree(edges + [e], v) == InDegree(edges, v) + (if e.head == v then 1 else 0)
    ensures OutDegree(edges + [e], v) == OutDegree(edges, v) + (if e.tail == v then 1 else 0)
  {
    assert (edges + [e])[..|edges|] == edges;
  }

  lemma {:induction false} DegreeCounts(edges: seq<Edge>, v: nat)
    ensures InDegree(edges, v) > 0 <==> exists k :: 0 <= k < |edges| && edges[k].head == v
    ensures OutDegree(edges, v) > 0 <==> exists k :: 0 <= k < |edges| && edges[k].tail == v
  {
    if edges != [] {
      var n := |edges| - 1;
      DegreeCounts(edges[..n], v);
      if InDegree(edges[..n], v) > 0 {
        var k :| 0 <= k < n && edges[..n][k].head == v;
        assert edges[k].head == v;
      }
      if OutDegree(edges[..n], v) > 0 {
        var k :| 0 <= k < n && edges[..n][k].tail == v;
        assert edges[k].tail == v;
      }
      if exists k :: 0 <= k < |edges| && edges[k].head == v {
        var k :| 0 <= k < |edges| && edges[k].head == v;
        if k < n { assert edges[..n][k].head == v; }
      }
      if exists k :: 0 <= k < |edges| && edges[k].tail == v {
        var k :| 0 <= k < |edges| && edges[k].tail == v;
        if k < n { assert edges[..n][k].tail == v; }
      }
    }
  }

  // Everything the passes so far keep.
  ghost predicate Good(n: nat, edges: seq<Edge>, ins: seq<nat>, outs: seq<nat>) {
    Forward(n, edges) && NoDuplicates(edges) && DegreesRight(n, edges, ins, outs)
  }

  lemma AddEdge(n: nat, edges: seq<Edge>, ins: seq<nat>, outs: seq<nat>, e: Edge)
    requires Good(n, edges, ins, outs) && e.tail < e.head < n && e !in edges
    ensures Good(n, edges + [e], ins[e.head := ins[e.head] + 1], outs[e.tail := outs[e.tail] + 1])
  {
    var more := edges + [e];
    forall j, k | 0 <= j < k < |more|
      ensures more[j] != more[k]
    {
      if k == |edges| { assert more[j] in edges; }
    }
    forall v | 0 <= v < n
      ensures ins[e.head := ins[e.head] + 1][v] == InDegree(more, v)
      ensures outs[e.tail := outs[e.tail] + 1][v] == OutDegree(more, v)
    {
      DegreesOfAppend(edges, e, v);
    }
  }

  // Edges met before the pair (i, j).
  ghost predicate Before(edges: seq<Edge>, i: nat, j: nat) {
    forall k :: 0 <= k < |edges| ==> edges[k].tail < i || (edges[k].tail == i && edges[k].head < j)
  }

  // Every node but the root has a predecessor, every node but the last a successor.
  ghost predicate Repaired(n: nat, edges: seq<Edge>) {
    && (forall v :: 1 <= v < n ==> InDegree(edges, v) > 0)
    && (forall v :: 0 <= v < n - 1 ==> OutDegree(edges, v) > 0)
  }

  // The first pass takes chosen pairs only, and leaves a chosen pair out only if
  // one of its nodes already has four edges on that side.
  ghost predicate Chosen(n: nat, coin: (nat, nat) -> bool, edges: seq<Edge>) {
    && (forall e :: e in edges ==> coin(e.tail, e.head) && !(e.tail == 0 && e.head == n - 1))
    && (forall v :: 0 <= v < n ==> InDegree(edges, v) <= 4 && OutDegree(edges, v) <= 4)
    && (forall i, j :: 0 <= i < j < n ==> Decided(n, coin, edges, i, j))
  }

  ghost predicate Decided(n: nat, coin: (nat, nat) -> bool, edges: seq<Edge>, i: nat, j: nat) {
    coin(i, j) && !(i == 0 && j == n - 1) ==>
      Edge(i, j) in edges || OutDegree(edges, i) >= 4 || InDegree(edges, j) >= 4
  }

  // A repair edge gives the root another successor, or the sink another
  // predecessor, for a node that had none.
  ghost predicate Repair(n: nat, first: seq<Edge>, e: Edge) {
    || (e.tail == 0 && InDegree(first, e.head) == 0)
    || (e.head == n - 1 && OutDegree(first, e.tail) == 0)
  }

  ghost predicate Extends(n: nat, first: seq<Edge>, edges: seq<Edge>) {
    && first <= edges
    && (forall k :: |first| <= k < |edges| ==> Repair(n, first, edges[k]))
  }

  lemma NoneBefore(first: seq<Edge>, edges: seq<Edge>, v: nat)
    requires first <= edges
    ensures InDegree(edges, v) == 0 ==> InDegree(first, v) == 0
    ensures OutDegree(edges, v) == 0 ==> OutDegree(first, v) == 0
  {
    DegreeCounts(edges, v);
    DegreeCounts(first, v);
    assert forall k :: 0 <= k < |first| ==> edges[k] == first[k];
  }

  // coin(i, j) is the random choice for the pair; first is what the first pass
  // produced.
  method Generate(n: nat, coin: (nat, nat) -> bool)
    returns (edges: seq<Edge>, ins: seq<nat>, outs: seq<nat>, ghost first: seq<Edge>)
    ensures Good(n, edges, ins, outs) && Repaired(n, edges)
    ensures Chosen(n, coin, first) && Extends(n, first, edges)
  {
    edges, ins, outs := AddRandomEdges(n, coin);
    first := edges;
    edges, ins, outs := DependOnRoot(n, first, edges, ins, outs);
    edges, ins, outs := PassOnToSink(n, first, edges, ins, outs);
  }

  lemma AddRepair(n: nat, first: seq<Edge>, edges: seq<Edge>, ins: seq<nat>, outs: seq<nat>, e: Edge)
    requires Good(n, edges, ins, outs) && Extends(n, first, edges) && e.tail < e.head < n
    requires (e.tail == 0 && ins[e.head] == 0) || (e.head == n - 1 && outs[e.tail] == 0)
    ensures Good(n, edges + [e], ins[e.head := ins[e.head] + 1], outs[e.tail := outs[e.tail] + 1])
    ensures Extends(n, first, edges + [e])
  {
    DegreeCounts(edges, e.head);
    DegreeCounts(edges, e.tail);
    NoneBefore(first, edges, e.head);
    NoneBefore(first, edges, e.tail);
    AddEdge(n, edges, ins, outs, e);
  }

  // Nodes without a predecessor depend on the root.
  method DependOnRoot(n: nat, ghost first: seq<Edge>, edges0: seq<Edge>, ins0: seq<nat>, outs0: seq<nat>)
    returns (edges: seq<Edge>, ins: seq<nat>, outs: seq<nat>)
    requires Good(n, edges0, ins0, outs0) && Extends(n, first, edges0)
    ensures Good(n, edges, ins, outs) && Extends(n, first, edges)
    ensures forall v :: 1 <= v < n ==> ins[v] > 0
  {
    edges, ins, outs := edges0, ins0, outs0;
    for node := 0 to n
      invariant Good(n, edges, ins, outs) && Extends(n, first, edges)
      invariant forall v :: 1 <= v < node ==> ins[v] > 0
    {
      if node != 0 && ins[node] == 0 {
        AddRepair(n, first, edges, ins, outs, Edge(0, node));
        edges, outs, ins := edges + [Edge(0, node)], outs[0 := outs[0] + 1], ins[node := ins[node] + 1];
      }
    }
  }

  // Nodes without a successor pass on to the sink.
  method PassOnToSink(n: nat, ghost first: seq<Edge>, edges0: seq<Edge>, ins0: seq<nat>, outs0: seq<nat>)
    returns (edges: seq<Edge>, ins: seq<nat>, outs: seq<nat>)
    requires Good(n, edges0, ins0, outs0) && Extends(n, first, edges0)
    requires forall v :: 1 <= v < n ==> ins0[v] > 0
    ensures Good(n, edges, ins, outs) && Extends(n, first, edges) && Repaired(n, edges)
  {
    edges, ins, outs := edges0, ins0, outs0;
    for node := 0 to n
      invariant Good(n, edges, ins, outs) && Extends(n, first, edges)
      invariant forall v :: 1 <= v < n ==> ins[v] > 0
      invariant forall v :: 0 <= v < node && v < n - 1 ==> outs[v] > 0
    {
      if node != n - 1 && outs[node] == 0 {
        AddRepair(n, first, edges, ins, outs, Edge(node, n - 1));
        edges, outs, ins := edges + [Edge(node, n - 1)], outs[node := outs[node] + 1], ins[n - 1 := ins[n - 1] + 1];
      }
    }
  }

  // Every pair met before (i, j) is decided.
  ghost predicate DecidedBefore(n: nat, coin: (nat, nat) -> bool, edges: seq<Edge>, i: nat, j: nat) {
    && (forall e :: e in edges ==> coin(e.tail, e.head) && !(e.tail == 0 && e.head == n - 1))
    && (forall x, y :: 0 <= x < y < n && (x < i || (x == i && y < j)) ==> Decided(n, coin, edges, x, y))
  }

  lemma AddDecides(n: nat, coin: (nat, nat) -> bool, edges: seq<Edge>, e: Edge)
    requires DecidedBefore(n, coin, edges, e.tail, e.head)
    requires coin(e.tail, e.head) && !(e.tail == 0 && e.head == n - 1)
    ensures DecidedBefore(n, coin, edges + [e], e.tail, e.head + 1)
  {
    var more := edges + [e];
    forall x, y | 0 <= x < y < n && (x < e.tail || (x == e.tail && y < e.head + 1))
      ensures Decided(n, coin, more, x, y)
    {
      DegreesOfAppend(edges, e, x);
      DegreesOfAppend(edges, e, y);
      if x == e.tail && y == e.head { assert more[|edges|] == e; } else { assert Decided(n, coin, edges, x, y); }
    }
  }

  // The pair (i, j) is decided: it becomes an edge, or not.
  lemma DecideNext(n: nat, coin: (nat, nat) -> bool, edges: seq<Edge>, ins: seq<nat>, outs: seq<nat>, i: nat, j: nat)
    requires Good(n, edges, ins, outs) && Before(edges, i, j) && DecidedBefore(n, coin, edges, i, j) && i < j < n
    ensures
      if coin(i, j) && !(i == 0 && j == n - 1) && outs[i] < 4 && ins[j] < 4 then
        var more := edges + [Edge(i, j)];
        && Good(n, more, ins[j := ins[j] + 1], outs[i := outs[i] + 1])
        && Before(more, i, j + 1) && DecidedBefore(n, coin, more, i, j + 1)
      else Before(edges, i, j + 1) && DecidedBefore(n, coin, edges, i, j + 1)
  {
    if coin(i, j) && !(i == 0 && j == n - 1) && outs[i] < 4 && ins[j] < 4 {
      AddEdge(n, edges, ins, outs, Edge(i, j));
      AddDecides(n, coin, edges, Edge(i, j));
    }
  }

  // Chosen pairs only, and all of them but those that would give a node five edges
  // on one side.
  ghost predicate ChosenOnly(n: nat, coin: (nat, nat) -> bool, edges: seq<Edge>) {
    && (forall v :: 0 <= v < n ==> InDegree(edges, v) <= 4 && OutDegree(edges, v) <= 4)
    && (forall e :: e in edges ==> e.tail < e.head < n && coin(e.tail, e.head) && !(e.tail == 0 && e.head == n - 1))
    && (forall i, j :: 0 <= i < j < n && coin(i, j) && !(i == 0 && j == n - 1) ==>
          Edge(i, j) in edges || OutDegree(edges, i) == 4 || InDegree(edges, j) == 4)
  }

  // The first pass: chosen pairs in order, while neither degree is at four.
  method AddRandomEdges(n: nat, coin: (nat, nat) -> bool) returns (edges: seq<Edge>, ins: seq<nat>, outs: seq<nat>)
    ensures Good(n, edges, ins, outs) && Chosen(n, coin, edges)
    ensures ChosenOnly(n, coin, edges)
  {
    edges, ins, outs := [], seq(n, _ => 0), seq(n, _ => 0);
    assert Good(n, edges, ins, outs);
    hide NoDuplicates, Forward;
    var i := 0;
    while i < n - 1
      invariant i <= n
      invariant Good(n, edges, ins, outs) && Before(edges, i, 0) && DecidedBefore(n, coin, edges, i, 0)
      invariant forall v :: 0 <= v < n ==> ins[v] <= 4 && outs[v] <= 4
    {
      for j := i + 1 to n
        invariant Good(n, edges, ins, outs) && Before(edges, i, j) && DecidedBefore(n, coin, edges, i, j)
        invariant forall v :: 0 <= v < n ==> ins[v] <= 4 && outs[v] <= 4
      {
        DecideNext(n, coin, edges, ins, outs, i, j);
        if coin(i, j) && !(i == 0 && j == n - 1) && outs[i] < 4 && ins[j] < 4 {
          edges, ins, outs := edges + [Edge(i, j)], ins[j := ins[j] + 1], outs[i := outs[i] + 1];
        }
      }
      i := i + 1;
    }
    ChosenSays(n, coin, edges, ins, outs);
  }

  lemma ChosenSays(n: nat, coin: (nat, nat) -> bool, edges: seq<Edge>, ins: seq<nat>, outs: seq<nat>)
    requires Good(n, edges, ins, outs) && DecidedBefore(n, coin, edges, if n == 0 then 0 else n - 1, 0)
    requires forall v :: 0 <= v < n ==> ins[v] <= 4 && outs[v] <= 4
    ensures Chosen(n, coin, edges) && ChosenOnly(n, coin, edges)
  {
    assert forall e :: e in edges ==> exists k :: 0 <= k < |edges| && edges[k] == e;
    forall x, y | 0 <= x < y < n
      ensures Decided(n, coin, edges, x, y)
      ensures coin(x, y) && !(x == 0 && y == n - 1) ==> Edge(x, y) in edges || OutDegree(edges, x) == 4 || InDegree(edges, y) == 4
    {
      assert Decided(n, coin, edges, x, y);
    }
  }

  // ------------------------------------------------------------ reachability

  ghost predicate Path(edges: seq<Edge>, p: seq<nat>) {
    p != [] && forall i :: 0 <= i < |p| - 1 ==> Edge(p[i], p[i + 1]) in edges
  }

  ghost predicate Reaches(edges: seq<Edge>, u: nat, v: nat) {
    exists p: seq<nat> :: Path(edges, p) && p[0] == u && p[|p| - 1] == v
  }

  // Every node is reachable from the root.
  lemma {:induction false} RootReaches(n: nat, edges: seq<Edge>, v: nat)
    requires Forward(n, edges) && Repaired(n, edges) && v < n
    ensures Reaches(edges, 0, v)
    decreases v
  {
    if v == 0 {
      assert Path(edges, [0]);
    } else {
      DegreeCounts(edges, v);
      var k :| 0 <= k < |edges| && edges[k].head == v;
      var u := edges[k].tail;
      RootReaches(n, edges, u);
      var p :| Path(edges, p) && p[0] == 0 && p[|p| - 1] == u;
      assert edges[k] == Edge(u, v);
      assert Path(edges, p + [v]);
    }
  }

  // Every node reaches the sink.
  lemma {:induction false} ReachesSink(n: nat, edges: seq<Edge>, v: nat)
    requires Forward(n, edges) && Repaired(n, edges) && v < n
    ensures Reaches(edges, v, n - 1)
    decreases n - v
  {
    if v == n - 1 {
      assert Path(edges, [v]);
    } else {
      DegreeCounts(edges, v);
      var k :| 0 <= k < |edges| && edges[k].tail == v;
      var w := edges[k].head;
      ReachesSink(n, edges, w);
      var p :| Path(edges, p) && p[0] == w && p[|p| - 1] == n - 1;
      assert edges[k] == Edge(v, w);
      assert Path(edges, [v] + p);
    }
  }

  // Without duplicates a degree counts different nodes.
  lemma {:induction false} InDegreeBound(edges: seq<Edge>, v: nat, tails: set<nat>)
    requires NoDuplicates(edges)
    requires forall k :: 0 <= k < |edges| && edges[k].head == v ==> edges[k].tail in tails
    ensures InDegree(edges, v) <= |tails|
    decreases |edges|
  {
    if edges != [] {
      var n := |edges| - 1;
      if edges[n].head == v {
        var fewer := tails - {edges[n].tail};
        forall k | 0 <= k < n && edges[..n][k].head == v
          ensures edges[..n][k].tail in fewer
        {
          assert edges[k] != edges[n];
        }
        InDegreeBound(edges[..n], v, fewer);
      } else {
        InDegreeBound(edges[..n], v, tails);
      }
    }
  }

  lemma {:induction false} OutDegreeBound(edges: seq<Edge>, v: nat, heads: set<nat>)
    requires NoDuplicates(edges)
    requires forall k :: 0 <= k < |edges| && edges[k].tail == v ==> edges[k].head in heads
    ensures OutDegree(edges, v) <= |heads|
    decreases |edges|
  {
    if edges != [] {
      var n := |edges| - 1;
      if edges[n].tail == v {
        var fewer := heads - {edges[n].head};
        forall k | 0 <= k < n && edges[..n][k].tail == v
          ensures edges[..n][k].head in fewer
        {
          assert edges[k] != edges[n];
        }
        OutDegreeBound(edges[..n], v, fewer);
      } else {
        OutDegreeBound(edges[..n], v, heads);
      }
    }
  }

  function Range(lo: nat, hi: nat): (s: set<nat>)
    ensures forall x :: x in s <==> lo <= x < hi
    ensures |s| == if lo <= hi then hi - lo else 0
    decreases hi
  {
    if lo >= hi then {} else Range(lo, hi - 1) + {hi - 1}
  }

  // A node has at most its earlier nodes as predecessors and its later ones as
  // successors, so a graph of twelve nodes fits the eleven slots of an actor.
  lemma DegreesFit(n: nat, edges: seq<Edge>, v: nat)
    requires Forward(n, edges) && NoDuplicates(edges) && v < n
    ensures InDegree(edges, v) <= v && OutDegree(edges, v) <= n - 1 - v
  {
    InDegreeBound(edges, v, Range(0, v));
    OutDegreeBound(edges, v, Range(v + 1, n));
  }
}
