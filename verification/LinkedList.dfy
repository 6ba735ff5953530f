/**
 The doubly linked list and the queue on top of it, against the sequence of their values. The nodes are
 objects on the heap whose links are changed in place; what makes them a list is that each node's links
 are those of its place in the sequence, and that no node has two places.
*/
module LinkedList {
  import opened Common

  datatype Result<+T> = Ok(value: T) | OutOfRange | NullDereference

  class Node<T> {
    var value: T
    var next: Node?<T>
    var prev: Node?<T>

    constructor (value: T)
      ensures this.value == value && next == null && prev == null
    {
      this.value, next, prev := value, null, null;
    }
  }

  /** The node at a position, or null before and after the list. */
  function Item<T>(nodes: seq<Node<T>>, i: int): Node?<T> {
    if 0 <= i < |nodes| then nodes[i] else null
  }

  /** No node is shared, and each points to its neighbours. */
  ghost predicate Linked<T>(nodes: seq<Node<T>>)
    reads nodes
  {
    && Distinct(nodes)
    && (forall i :: 0 <= i < |nodes| ==> nodes[i].next == Item(nodes, i + 1))
    && (forall i :: 0 <= i < |nodes| ==> nodes[i].prev == Item(nodes, i - 1))
  }

  ghost predicate Distinct<T>(nodes: seq<Node<T>>) {
    forall i, j :: 0 <= i < j < |nodes| ==> nodes[i] != nodes[j]
  }

  function Cut<T>(s: seq<T>, index: nat): (r: seq<T>)
    requires index < |s|
    ensures |r| == |s| - 1
    ensures forall i :: 0 <= i < |r| ==> r[i] == s[if i < index then i else i + 1]
  {
    s[..index] + s[index + 1..]
  }

  lemma {:induction false} CutFirst<T>(s: seq<T>)
    requires s != []
    ensures Cut(s, 0) == s[1..]
  {
  }

  /** What is linked once the nodes beside one of them point past it. */
  lemma {:induction false} CutIsLinked<T>(nodes: seq<Node<T>>, index: nat)
    requires index < |nodes| && Distinct(nodes)
    requires forall i :: 0 <= i < |nodes| ==>
      nodes[i].next == if i + 1 == index then Item(nodes, index + 1) else Item(nodes, i + 1)
    requires forall i :: 0 <= i < |nodes| ==>
      nodes[i].prev == if i - 1 == index then Item(nodes, index - 1) else Item(nodes, i - 1)
    ensures Linked(Cut(nodes, index))
  {
    var cut := Cut(nodes, index);
    forall i | 0 <= i < |cut| ensures cut[i].next == Item(cut, i + 1) && cut[i].prev == Item(cut, i - 1) {
      var k := if i < index then i else i + 1;
      assert cut[i] == nodes[k];
    }
  }

  lemma {:induction false} MoreIsLinked<T>(nodes: seq<Node<T>>, node: Node<T>)
    requires Distinct(nodes) && node !in nodes
    requires forall i :: 0 <= i < |nodes| ==>
      nodes[i].next == if i == |nodes| - 1 then node else Item(nodes, i + 1)
    requires forall i :: 0 <= i < |nodes| ==> nodes[i].prev == Item(nodes, i - 1)
    requires node.next == null && node.prev == Item(nodes, |nodes| - 1)
    ensures Linked(nodes + [node])
  {
  }

  class LinkedList<T> {
    var length: nat
    var head: Node?<T>
    var tail: Node?<T>
    // the nodes from head to tail
    ghost var nodes: seq<Node<T>>

    ghost predicate Valid()
      reads this, nodes
    {
      && Linked(nodes) && length == |nodes|
      && head == Item(nodes, 0) && tail == Item(nodes, length - 1)
    }

    ghost function Values(): (r: seq<T>)
      reads this, nodes
      ensures |r| == |nodes| && forall i :: 0 <= i < |r| ==> r[i] == nodes[i].value
    {
      seq(|nodes|, i requires 0 <= i < |nodes| reads this, nodes => nodes[i].value)
    }

    constructor ()
      ensures Valid() && Values() == [] && nodes == []
    {
      length, head, tail, nodes := 0, null, null, [];
    }

    method Append(node: Node<T>)
      requires Valid() && node !in nodes && node.next == null && node.prev == null
      modifies this, nodes, node
      ensures Valid() && nodes == old(nodes) + [node]
      ensures node.value == old(node.value) && forall n :: n in old(nodes) ==> n.value == old(n.value)
    {
      ghost var before := nodes;
      if head == null {
        head, tail := node, node;
      } else {
        node.prev := tail;
        tail.next := node;
        tail := node;
      }
      length := length + 1;
      MoreIsLinked(before, node);
      nodes := before + [node];
    }

    method Add(value: T) returns (node: Node<T>)
      requires Valid()
      modifies this, nodes
      ensures Valid() && fresh(node) && nodes == old(nodes) + [node]
      ensures Values() == old(Values()) + [value]
    {
      hide Linked;
      node := new Node(value);
      Append(node);
      assert Values() == old(Values()) + [value];
    }

    /** One past the end is in range, and is null. */
    method NodeAt(index: int) returns (r: Result<Node?<T>>)
      requires Valid()
      ensures r == if index < 0 || index > length then OutOfRange else Ok(Item(nodes, index))
    {
      if index < 0 || index > length {
        return OutOfRange;
      }
      var currentNode := head;
      var count := 0;
      while count < index
        invariant 0 <= count <= index && currentNode == Item(nodes, count)
      {
        currentNode := currentNode.next;
        count := count + 1;
      }
      return Ok(currentNode);
    }

    method ValueAt(index: int) returns (r: Result<Option<T>>)
      requires Valid()
      ensures r == if index < 0 || index > length then OutOfRange
                   else Ok(if index < length then Some(Values()[index]) else None)
    {
      var node := NodeAt(index);
      if node.OutOfRange? { return OutOfRange; }
      if node.value == null { return Ok(None); }
      return Ok(Some(node.value.value));
    }

    /** The last lines of a removal: the neighbours are made to point past the node. */
    method Splice(ghost index: nat, prevNode: Node?<T>, nextNode: Node?<T>)
      requires Linked(nodes) && length == |nodes| && index < length
      requires prevNode == Item(nodes, index - 1) && nextNode == Item(nodes, index + 1)
      modifies this`length, this`nodes, nodes
      ensures Linked(nodes) && length == |nodes| && nodes == Cut(old(nodes), index)
      ensures forall n :: n in old(nodes) ==> n.value == old(n.value)
    {
      if prevNode != null { prevNode.next := nextNode; }
      if nextNode != null { nextNode.prev := prevNode; }
      length := length - 1;
      CutIsLinked(nodes, index);
      nodes := Cut(nodes, index);
    }

    /** The first lines of a removal: the node and its neighbours, with the ends of the list moved. */
    method Detach(index: nat) returns (removeNode: Node?<T>, prevNode: Node?<T>, nextNode: Node?<T>)
      requires Valid() && index <= length && length > 0
      modifies this`head, this`tail
      ensures index == length ==> removeNode == null && head == old(head) && tail == old(tail)
      ensures index < length ==>
        && removeNode == nodes[index] && prevNode == Item(nodes, index - 1) && nextNode == Item(nodes, index + 1)
        && head == (if index == 0 then Item(nodes, 1) else nodes[0])
        && tail == (if index == length - 1 then Item(nodes, length - 2) else nodes[length - 1])
    {
      removeNode, prevNode, nextNode := null, null, null;
      if index == 0 {
        removeNode := head;
        nextNode := head.next;
        head := nextNode;
      }
      if index == length - 1 {
        removeNode := tail;
        prevNode := tail.prev;
        tail := prevNode;
      }
      if removeNode == null {
        var found := NodeAt(index);
        removeNode := found.value;
        if removeNode == null { return; }
        prevNode := removeNode.prev;
        nextNode := removeNode.next;
      }
    }

    /** Takes out the node at the index; exactly outside the list it fails, and changes nothing. */
    method Remove(index: int) returns (r: Result<T>)
      requires Valid()
      modifies this, nodes
      ensures Valid()
      ensures 0 <= index < old(length) ==>
        && r == Ok(old(Values())[index])
        && Values() == Cut(old(Values()), index) && nodes == Cut(old(nodes), index)
      ensures !(0 <= index < old(length)) ==>
        && r == (if index == old(length) then NullDereference else OutOfRange)
        && Values() == old(Values()) && nodes == old(nodes)
    {
      hide Linked;
      if index < 0 || index > length {
        return OutOfRange;
      }
      if head == null { return NullDereference; }
      var removeNode, prevNode, nextNode := Detach(index);
      if removeNode == null { return NullDereference; }
      ghost var before := nodes;
      Splice(index, prevNode, nextNode);
      assert Values() == Cut(old(Values()), index);
      return Ok(removeNode.value);
    }
  }

  /** First in, first out. */
  class Queue<T> {
    const list: LinkedList<T>

    ghost predicate Valid()
      reads list, list.nodes
    {
      list.Valid()
    }

    ghost function Values(): seq<T>
      reads list, list.nodes
    {
      list.Values()
    }

    constructor ()
      ensures Valid() && Values() == [] && fresh(list) && list.nodes == []
    {
      list := new LinkedList();
    }

    method Peak() returns (r: Option<T>)
      requires Valid()
      ensures r == if Values() == [] then None else Some(Values()[0])
    {
      if list.head == null { return None; }
      return Some(list.head.value);
    }

    method Enqueue(value: T)
      requires Valid()
      modifies list, list.nodes
      ensures Valid() && Values() == old(Values()) + [value]
      ensures |list.nodes| > 0 && list.nodes[..|list.nodes| - 1] == old(list.nodes)
      ensures fresh(list.nodes[|list.nodes| - 1])
    {
      hide Linked;
      var node := list.Add(value);
      assert list.nodes[|list.nodes| - 1] == node;
    }

    /** An empty queue throws. */
    method Dequeue() returns (r: Result<T>)
      requires Valid()
      modifies list, list.nodes
      ensures Valid()
      ensures old(Values()) == [] ==> r == NullDereference && Values() == [] && list.nodes == []
      ensures old(Values()) != [] ==>
        && r == Ok(old(Values())[0]) && Values() == old(Values())[1..]
        && list.nodes == old(list.nodes)[1..]
    {
      hide Linked, Cut;
      if Values() != [] {
        CutFirst(Values());
        CutFirst(list.nodes);
      }
      r := list.Remove(0);
    }
  }
}
