/** The linked queue of `src/fdmi_queue.c`, with its built-in iterator. */
module Queue {
  import opened Basics

  datatype IteratorState = Head | Next

  class Node<T> {
    var next: Node?<T>
    const data: T

    constructor (data: T)
      ensures this.data == data && next == null
    {
      this.data := data;
      next := null;
    }
  }

  class Queue<T(==)> {
    var head: Node?<T>
    var tail: Node?<T>
    var ite: Node?<T>
    var length: nat
    ghost var nodes: seq<Node<T>>
    ghost var contents: seq<T>

    /** The nodes from `head` on are linked in order, hold the contents, end at
        `tail`, and are counted. */
    ghost predicate Valid()
      reads this, nodes
    {
      |contents| == |nodes| && (forall i :: 0 <= i < |nodes| ==> nodes[i].data == contents[i]) &&
      Distinct(nodes) &&
      (forall i :: 0 <= i < |nodes| ==> nodes[i].next == NodeAt(i + 1)) &&
      head == NodeAt(0) && length == |nodes| &&
      tail == if nodes == [] then null else nodes[|nodes| - 1]
    }

    /** The node at a position, or null at the end. */
    ghost function NodeAt(i: nat): Node?<T>
      reads this
    {
      if i < |nodes| then nodes[i] else null
    }

    constructor ()
      ensures Valid() && contents == [] && nodes == []
    {
      head, tail, ite, length, nodes, contents := null, null, null, 0, [], [];
    }

    /** Add at the tail. */
    method Enq(data: T)
      requires Valid()
      modifies this, nodes
      ensures Valid() && contents == old(contents) + [data]
      ensures |nodes| == |old(nodes)| + 1 && nodes[..|old(nodes)|] == old(nodes) && fresh(nodes[|old(nodes)|])
      ensures ite == old(ite)
    {
      var d := new Node(data);
      if head == null && tail == null {
        head := d;
        tail := d;
      } else {
        tail.next := d;
        tail := d;
      }
      length := length + 1;
      nodes, contents := nodes + [d], contents + [data];
    }

    /** Remove at the head. */
    method Deq() returns (data: Option<T>)
      requires Valid()
      modifies this
      ensures Valid() && ite == old(ite)
      ensures if old(contents) == [] then data == None && contents == [] && nodes == old(nodes)
              else data == Some(old(contents)[0]) && contents == old(contents)[1..] && nodes == old(nodes)[1..]
    {
      if head == null {
        return None;
      }
      data := Some(head.data);
      head := head.next;
      nodes, contents := nodes[1..], contents[1..];
      if head == null {
        tail := null;
      }
      length := length - 1;
    }

    /** The next element of the iteration, or none at its end. */
    method Iterate(state: IteratorState, ghost k: nat) returns (data: Option<T>)
      requires Valid()
      requires state == Next ==> ite == NodeAt(k)
      requires state == Head ==> k == 0
      modifies this`ite
      ensures Valid()
      ensures if k < |nodes| then data == Some(contents[k]) && ite == NodeAt(k + 1)
              else data == None && ite == old(ite)
    {
      match state
      case Head =>
        if head == null {
          data := None;
        } else {
          data := Some(head.data);
          ite := head.next;
        }
      case Next =>
        if ite == null {
          data := None;
        } else {
          data := Some(ite.data);
          ite := ite.next;
        }
    }

    /** The effect of taking out the node at position `i`. An iterator that was
        at position `k` stays on the same node, or moves on from the removed one
        -- except that when it was at the head and the head is removed, it is
        left on the removed node unless the queue is now empty. */
    twostate predicate Removed(i: nat)
      reads this, nodes
    {
      i < |old(nodes)| && i < |old(contents)| &&
      contents == Without(old(contents), i) &&
      nodes == Without(old(nodes), i) &&
      (forall k: nat :: i < k <= |old(nodes)| && old(ite) == old(NodeAt(k)) ==> ite == NodeAt(k - 1)) &&
      (forall k: nat :: k < i && old(ite) == old(NodeAt(k)) ==> ite == NodeAt(k)) &&
      (i > 0 && old(ite) == old(NodeAt(i)) ==> ite == NodeAt(i)) &&
      (i == 0 && old(ite) == old(NodeAt(0)) ==> (ite == NodeAt(0) <==> |old(nodes)| == 1))
    }

    method RemoveHead()
      requires Valid() && head != null
      modifies this
      ensures Valid() && Removed(0)
    {
      head := head.next;
      nodes, contents := Without(nodes, 0), Without(contents, 0);
      if head == null {
        tail := null;
        ite := null;
      }
      length := length - 1;
    }

    /** Unlink the node after `oldD`. */
    method RemoveAfter(oldD: Node<T>, curD: Node<T>, ghost i: nat)
      requires Valid() && 0 < i < |nodes| && oldD == nodes[i - 1] && curD == nodes[i]
      modifies this, oldD`next
      ensures Valid() && Removed(i)
    {
      hide Valid, Without, Distinct, Removed;
      LinkAt(i);
      LinkAt(i - 1);
      oldD.next := curD.next;
      if tail == curD {
        tail := oldD;
      }
      if ite == curD {
        ite := curD.next;
      }
      length := length - 1;
      nodes, contents := Without(nodes, i), Without(contents, i);
      AfterRemoveAfter(i);
    }

    lemma SameLength()
      requires Valid()
      ensures |contents| == |nodes|
    {
    }

    lemma LinkAt(i: nat)
      requires Valid() && i < |nodes|
      ensures |contents| == |nodes| && length > 0
      ensures nodes[i].next == NodeAt(i + 1)
    {
    }

    /** What bypassing the node at `i` amounts to. */
    twostate lemma AfterRemoveAfter(i: nat)
      requires old(Valid()) && 0 < i < |old(nodes)|
      requires head == old(head) && length == old(length) - 1
      requires tail == if old(tail) == old(nodes)[i] then old(nodes)[i - 1] else old(tail)
      requires ite == if old(ite) == old(nodes)[i] then old(nodes[i].next) else old(ite)
      requires nodes == Without(old(nodes), i) && contents == Without(old(contents), i)
      requires old(nodes)[i - 1].next == old(nodes[i].next)
      requires forall k :: 0 <= k < |old(nodes)| && old(nodes)[k] != old(nodes)[i - 1] ==> old(nodes)[k].next == old(nodes[k].next)
      ensures Valid() && Removed(i)
    {
      hide Without, Removed, Distinct;
      DistinctFrom(old(nodes), i - 1);
      DistinctFrom(old(nodes), i);
      forall j | 0 <= j < |nodes| ensures nodes[j].next == NodeAt(j + 1) {
        var k := if j < i then j else j + 1;
        assert nodes[j] == old(nodes)[k];
        if k < i - 1 {
          assert NodeAt(j + 1) == old(nodes)[k + 1];
        }
      }
      IteratorMoved(i);
    }

    twostate lemma IteratorMoved(i: nat)
      requires old(Valid()) && 0 < i < |old(nodes)|
      requires ite == if old(ite) == old(nodes)[i] then old(nodes[i].next) else old(ite)
      requires nodes == Without(old(nodes), i) && contents == Without(old(contents), i)
      ensures Removed(i)
    {
      hide Without, Distinct;
      DistinctFrom(old(nodes), i);
    }

    /** Remove the first occurrence of an element, if there is one. */
    method Remove(d: T)
      requires Valid()
      modifies this, nodes
      ensures Valid()
      ensures var i := FirstIndex(old(contents), d);
              if i == |old(nodes)| then nodes == old(nodes) && contents == old(contents) && ite == old(ite)
              else Removed(i)
    {
      if head == null {
        return;
      }
      assert head.data == contents[0];
      if head.data == d {
        FirstIndexIs(contents, d, 0);
        RemoveHead();
        return;
      }
      var oldD := head;
      var curD := head.next;
      ghost var i := 1;
      while curD != null
        invariant 1 <= i <= |nodes| && oldD == nodes[i - 1] && curD == NodeAt(i)
        invariant forall j :: 0 <= j < i ==> contents[j] != d
        decreases |nodes| - i
      {
        assert curD.data == contents[i];
        if curD.data == d {
          FirstIndexIs(contents, d, i);
          RemoveAfter(oldD, curD, i);
          return;
        }
        oldD := curD;
        curD := curD.next;
        i := i + 1;
      }
      FirstIndexIs(contents, d, i);
    }
  }

  lemma DistinctFrom<T>(s: seq<T>, i: nat)
    requires Distinct(s) && i < |s|
    ensures forall j :: 0 <= j < |s| && j != i ==> s[j] != s[i]
    ensures Distinct(Without(s, i))
  {
  }

  /** The first position of an element, or the length. */
  ghost function FirstIndex<T>(s: seq<T>, d: T): (k: nat)
    ensures k <= |s|
    ensures k < |s| ==> s[k] == d
    ensures forall i :: 0 <= i < k ==> s[i] != d
    decreases |s|
  {
    if s == [] then 0 else if s[0] == d then 0 else 1 + FirstIndex(s[1..], d)
  }

  lemma {:induction false} FirstIndexIs<T>(s: seq<T>, d: T, i: nat)
    requires i <= |s| && (i < |s| ==> s[i] == d)
    requires forall j :: 0 <= j < i ==> s[j] != d
    ensures FirstIndex(s, d) == i
    decreases i
  {
    if i > 0 {
      assert s[0] != d;
      assert forall j :: 0 <= j < i - 1 ==> s[1..][j] == s[j + 1];
      FirstIndexIs(s[1..], d, i - 1);
    }
  }
}
