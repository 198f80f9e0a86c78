// The doubly linked list with two sentinels that all of the scheduler's lists
// are made of (src/linked_list.c).
module LinkedList {
  class Node {
    var item: int
    var prev: Node?
    var next: Node?

    constructor (i: int)
      ensures item == i && prev == null && next == null
    {
      item, prev, next := i, null, null;
    }
  }

  // The items of nodes that are passed from the tail, oldest first.
  ghost function Backwards(nodes: seq<Node>): (items: seq<int>)
    reads nodes
    ensures |items| == |nodes|
    ensures forall i :: 0 <= i < |nodes| ==> items[i] == nodes[|nodes| - 1 - i].item
  {
    if nodes == [] then [] else Backwards(nodes[1..]) + [nodes[0].item]
  }

  // The first node that holds the key, or null.
  ghost function FirstWith(nodes: seq<Node>, key: int): (p: Node?)
    reads nodes
    ensures p == null <==> forall i :: 0 <= i < |nodes| ==> nodes[i].item != key
    ensures p != null ==> exists k: nat :: FirstAt(nodes, key, k) && nodes[k] == p
  {
    if nodes == [] then null
    else if nodes[0].item == key then
      assert FirstAt(nodes, key, 0);
      nodes[0]
    else
      var p := FirstWith(nodes[1..], key);
      assert forall k: nat :: FirstAt(nodes[1..], key, k) ==> FirstAt(nodes, key, k + 1);
      assert forall i :: 1 <= i < |nodes| ==> nodes[i] == nodes[1..][i - 1];
      p
  }

  ghost predicate FirstAt(nodes: seq<Node>, key: int, k: nat)
    reads nodes
  {
    k < |nodes| && nodes[k].item == key && forall j :: 0 <= j < k ==> nodes[j].item != key
  }

  lemma WithoutNode(ring: seq<Node>, k: nat)
    requires 1 <= k < |ring| - 1
    ensures
      var less := ring[..k] + ring[k + 1..];
      && (forall i :: 0 <= i < |less| ==> less[i] == ring[if i < k then i else i + 1])
      && less[1..|less| - 1] == ring[1..|ring| - 1][..k - 1] + ring[1..|ring| - 1][k..]
  {
    var nodes, n := ring[1..|ring| - 1], |ring| - 1;
    assert nodes[..k - 1] == ring[1..k] && nodes[k..] == ring[k + 1..n];
    assert (ring[..k] + ring[k + 1..])[1..n - 1] == ring[1..k] + ring[k + 1..n];
  }

  class List {
    const head: Node
    const tail: Node
    // head, the nodes in list order, tail
    ghost var ring: seq<Node>

    ghost predicate Valid()
      reads this, ring
    {
      && |ring| >= 2 && ring[0] == head && ring[|ring| - 1] == tail
      && (forall i, j :: 0 <= i < j < |ring| ==> ring[i] != ring[j])
      && (forall i :: 0 <= i < |ring| - 1 ==> ring[i].next == ring[i + 1])
      && (forall i :: 1 <= i < |ring| ==> ring[i].prev == ring[i - 1])
      && head.prev == null && tail.next == null
      && head.item == 0 && tail.item == 0
    }

    ghost function Nodes(): seq<Node>
      requires Valid()
      reads this, ring
    {
      ring[1..|ring| - 1]
    }

    // What the list holds as a queue, oldest first.
    ghost function Items(): seq<int>
      requires Valid()
      reads this, ring
    {
      Backwards(Nodes())
    }

    // create_list
    constructor ()
      ensures Valid() && Nodes() == [] && fresh(ring)
    {
      head := new Node(0);
      tail := new Node(0);
      ring := [head, tail];
      new;
      head.next := tail;
      tail.prev := head;
    }

    // A new node follows the head.
    method Insert(p: Node)
      requires Valid() && p !in ring
      modifies this`ring, p, head, head.next
      ensures Valid() && ring == [head, p] + old(ring)[1..]
      ensures Nodes() == [p] + old(Nodes())
      ensures p.item == old(p.item) && forall n :: n in old(ring) ==> n.item == old(n.item)
    {
      assert head.next == ring[1] && ring[0] == head;
      p.next := head.next;
      head.next.prev := p;
      head.next := p;
      p.prev := head;
      ring := [head, p] + ring[1..];
      assert ring[1..|ring| - 1] == [p] + old(ring)[1..|old(ring)| - 1];
    }

    // delete_node for the node at position k.
    method DeleteNode(p: Node, ghost k: nat)
      requires Valid() && 1 <= k < |ring| - 1 && ring[k] == p
      modifies this`ring, p.prev, p.next
      ensures Valid() && ring == old(ring)[..k] + old(ring)[k + 1..]
      ensures Nodes() == old(Nodes())[..k - 1] + old(Nodes())[k..]
      ensures forall n :: n in old(ring) ==> n.item == old(n.item)
    {
      ghost var was := ring;
      assert p.prev == ring[k - 1] && p.next == ring[k + 1];
      p.prev.next := p.next;
      p.next.prev := p.prev;
      ring := ring[..k] + ring[k + 1..];
      WithoutNode(was, k);
      forall i | 0 <= i < |ring| - 1
        ensures ring[i].next == ring[i + 1] && ring[i + 1].prev == ring[i]
      {
        assert ring[i] == was[if i < k then i else i + 1] && ring[i + 1] == was[if i + 1 < k then i + 1 else i + 2];
      }
    }

    predicate IsEmpty()
      requires Valid()
      reads this, ring
      ensures IsEmpty() <==> Nodes() == []
    {
      assert tail.prev == ring[|ring| - 2];
      tail.prev == head
    }

    // The oldest node, or null.
    function ReadLast(): (p: Node?)
      requires Valid()
      reads this, ring
      ensures Nodes() == [] ==> p == null
      ensures Nodes() != [] ==> p == Nodes()[|Nodes()| - 1] && p.item == Items()[0]
    {
      assert tail.prev == ring[|ring| - 2];
      if tail.prev == head then null else tail.prev
    }

    // The newest node, or null.
    function ReadFirst(): (p: Node?)
      requires Valid()
      reads this, ring
      ensures Nodes() == [] ==> p == null
      ensures Nodes() != [] ==> p == Nodes()[0]
    {
      assert tail.prev == ring[|ring| - 2] && head.next == ring[1];
      if tail.prev == head then null else head.next
    }

    // The walk starts at the head sentinel, whose item is 0: searching for 0 always
    // finds the sentinel.  For any other key the first node that holds it is found.
    method Search(key: int) returns (p: Node?)
      requires Valid()
      ensures p == head <==> key == 0
      ensures p == FirstWith(Nodes(), key) <==> key != 0
    {
      var n := head;
      ghost var k := 0;
      while n != tail
        invariant 0 <= k < |ring| && ring[k] == n
        invariant k > 0 ==> key != 0 && FirstWith(Nodes(), key) == FirstWith(Nodes()[k - 1..], key)
        decreases |ring| - k
      {
        if n.item == key {
          if k > 0 { assert Nodes()[k - 1] == n; }
          NoSentinel();
          return n;
        }
        assert n.next == ring[k + 1];
        if k > 0 { assert Nodes()[k - 1] == n && Nodes()[k - 1..][1..] == Nodes()[k..]; }
        n := n.next;
        k := k + 1;
      }
      assert Nodes()[k - 1..] == [];
      return null;
    }

    // A sentinel is none of the list's nodes.
    lemma NoSentinel()
      requires Valid()
      ensures head !in Nodes()
    {
    }

    // destroy_list frees every node once: freed lists them, newest first.
    method DestroyList() returns (ghost freed: seq<Node>)
      requires Valid()
      modifies head, tail, this`ring
      ensures Valid() && Nodes() == [] && freed == old(Nodes())
    {
      ghost var was := ring;
      ghost var k := 1;
      var p := head.next;
      freed := [];
      assert p == ring[1];
      head.next := tail;
      tail.prev := head;
      ring := [head, tail];
      while p != tail
        invariant 1 <= k < |was| && p == was[k] && freed == was[1..k]
        invariant forall i :: 1 <= i < |was| - 1 ==> was[i].next == was[i + 1]
        decreases |was| - k
      {
        freed := freed + [p];
        assert p.next == was[k + 1];
        p := p.next;
        k := k + 1;
      }
    }
  }

  // insert is putting a queue's newest item in.
  lemma InsertIsEnqueue(p: Node, nodes: seq<Node>)
    ensures Backwards([p] + nodes) == Backwards(nodes) + [p.item]
  {
    assert ([p] + nodes)[1..] == nodes;
  }

  // Deleting the last node takes the oldest item out.
  lemma {:induction false} DeleteLastIsDequeue(nodes: seq<Node>)
    requires nodes != []
    ensures Backwards(nodes) == [nodes[|nodes| - 1].item] + Backwards(nodes[..|nodes| - 1])
  {
    var n := |nodes| - 1;
    if n > 0 {
      DeleteLastIsDequeue(nodes[1..]);
      assert nodes[1..][..n - 1] == nodes[..n][1..];
    }
  }

  // A ready list, fire list or token list: in at the head, out at the tail.
  method Enqueue(l: List, item: int)
    requires l.Valid()
    modifies l, l.ring
    ensures l.Valid() && l.Items() == old(l.Items()) + [item]
  {
    var p := new Node(item);
    ghost var ring, was, items := l.ring, l.Nodes(), l.Items();
    l.Insert(p);
    InsertIsEnqueue(p, was);
    forall i | 0 <= i < |was|
      ensures Backwards(was)[i] == items[i]
    {
      var j := |was| - 1 - i;
      assert was[j] == ring[j + 1] && ring[j + 1] in ring;
    }
    assert Backwards(was) == items && l.Nodes() == [p] + was;
  }

  method Dequeue(l: List) returns (item: int)
    requires l.Valid() && l.Nodes() != []
    modifies l, l.ring
    ensures l.Valid() && [item] + l.Items() == old(l.Items())
  {
    var p := l.ReadLast();
    item := p.item;
    ghost var was := l.Nodes();
    DeleteLastIsDequeue(was);
    ghost var k := |l.ring| - 2;
    assert p == l.ring[k] && p.prev == l.ring[k - 1] && p.next == l.ring[k + 1];
    l.DeleteNode(p, k);
    assert l.Nodes() == was[..|was| - 1];
  }

  // The code's own case: a list that holds nothing but a node with item 0 answers
  // the search for 0 with its sentinel.
  method SearchZero() returns (l: List, p: Node?)
    ensures l.Valid() && l.Items() == [0]
    ensures p == l.head && p !in l.Nodes() && FirstWith(l.Nodes(), 0) == l.Nodes()[0]
  {
    l := new List();
    Enqueue(l, 0);
    assert |l.Nodes()| == 1 && l.Nodes()[0].item == l.Items()[0] == 0;
    p := l.Search(0);
    l.NoSentinel();
  }
}
