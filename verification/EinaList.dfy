/** The singly walked part of an Eina list: prepend, remove the first node that
    holds a value, and the node chain that EINA_LIST_FOREACH_SAFE follows. */
module EinaList {
  class Node<T> {
    const data: T
    var next: Node?<T>

    constructor (data: T, next: Node?<T>)
      ensures this.data == data && this.next == next
    {
      this.data, this.next := data, next;
    }
  }

  /** The values along a chain of nodes. */
  function Values<T>(nodes: seq<Node<T>>): (s: seq<T>)
    ensures |s| == |nodes| && forall i :: 0 <= i < |s| ==> s[i] == nodes[i].data
  {
    seq(|nodes|, i requires 0 <= i < |nodes| => nodes[i].data)
  }

  lemma ValuesWithout<T>(nodes: seq<Node<T>>, k: nat)
    requires k < |nodes|
    ensures Values(nodes[..k] + nodes[k + 1..]) == Values(nodes)[..k] + Values(nodes)[k + 1..]
  {
  }

  /** Position `|kept|` of `kept + es[i..]` holds `es[i]`. */
  lemma PassOne<T>(kept: seq<T>, es: seq<T>, i: nat)
    requires i < |es|
    ensures var s := kept + es[i..];
            && s[|kept|] == es[i]
            && s[..|kept|] + s[|kept| + 1..] == kept + es[i + 1..]
            && s == (kept + [es[i]]) + es[i + 1..]
  {
  }

  class List<T(==)> {
    var head: Node?<T>
    ghost var nodes: seq<Node<T>>
    ghost var footprint: set<Node<T>> // every node the list ever held

    /** The node at position `i`, or null at the end. */
    ghost function At(i: nat): Node?<T>
      reads this`nodes
    {
      if i < |nodes| then nodes[i] else null
    }

    ghost predicate Valid()
      reads this, footprint
    {
      && (forall i :: 0 <= i < |nodes| ==> nodes[i] in footprint)
      && head == At(0)
      && (forall i {:trigger nodes[i].next} :: 0 <= i < |nodes| ==> nodes[i].next == At(i + 1))
      && (forall i, j :: 0 <= i < j < |nodes| ==> nodes[i] != nodes[j])
    }

    ghost function Contents(): seq<T>
      reads this`nodes
    {
      Values(nodes)
    }

    constructor ()
      ensures Valid() && nodes == [] && footprint == {}
    {
      head, nodes, footprint := null, [], {};
    }

    method Prepend(x: T)
      requires Valid()
      modifies this
      ensures Valid()
      ensures |nodes| > 0 && fresh(nodes[0]) && nodes == [nodes[0]] + old(nodes)
      ensures footprint == old(footprint) + {nodes[0]}
      ensures Contents() == [x] + old(Contents())
    {
      var node := new Node(x, head);
      head, nodes, footprint := node, [node] + nodes, footprint + {node};
    }

    /** Unlinks the node after `prev`, which is at position `i - 1`. */
    method Unlink(prev: Node<T>, ghost i: nat)
      requires Valid()
      requires 0 < i < |nodes| && prev == nodes[i - 1]
      modifies this`nodes, prev
      ensures Valid() && footprint == old(footprint)
      ensures nodes == old(nodes[..i] + nodes[i + 1..])
    {
      prev.next := prev.next.next;
      nodes := nodes[..i] + nodes[i + 1..];
    }

    /** Removes the first node that holds `x`, which is at position `k`. */
    method Remove(x: T, ghost k: nat)
      requires Valid()
      requires k < |nodes| && nodes[k].data == x
      requires forall i :: 0 <= i < k ==> nodes[i].data != x
      modifies this`head, this`nodes, footprint
      ensures Valid() && footprint == old(footprint)
      ensures nodes == old(nodes[..k] + nodes[k + 1..])
    {
      if head.data == x {
        head := head.next;
        nodes := nodes[1..];
        return;
      }
      var prev := head;
      ghost var i := 1;
      while prev.next.data != x
        invariant 0 < i <= k && prev == nodes[i - 1] && prev.next == nodes[i]
        decreases k - i
      {
        prev := prev.next;
        i := i + 1;
      }
      Unlink(prev, i);
    }
  }
}
