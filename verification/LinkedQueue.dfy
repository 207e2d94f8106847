// The head/tail singly linked queue that both the request body stream and the reverse-path
// retry FIFO are built on (src/http_body_stream.c:42-133, src/http_server_class.c:2882-3036).
module LinkedQueue {
  import opened Common

  class Node<T> {
    const data: T
    var next: Node?<T>

    constructor (data: T)
      ensures this.data == data && next == null
    {
      this.data := data;
      next := null;
    }
  }

  class Chain<T> {
    var head: Node?<T>
    var tail: Node?<T>
    ghost var spine: seq<Node<T>>   // the nodes from head to tail
    ghost var contents: seq<T>      // what they hold

    ghost predicate Valid()
      reads this, spine
    {
      && |contents| == |spine|
      && (spine == [] ==> head == null && tail == null)
      && (spine != [] ==> head == spine[0] && tail == spine[|spine| - 1] && tail.next == null)
      && (forall i :: 0 <= i < |spine| ==> spine[i].data == contents[i])
      && (forall i :: 0 <= i < |spine| - 1 ==> spine[i].next == spine[i + 1])
      && (forall i, j :: 0 <= i < j < |spine| ==> spine[i] != spine[j])
    }

    constructor ()
      ensures Valid() && contents == [] && spine == []
    {
      head, tail := null, null;
      spine, contents := [], [];
    }

    method Append(x: T)
      requires Valid()
      modifies this, spine
      ensures Valid() && contents == old(contents) + [x]
      ensures |spine| == |old(spine)| + 1 && spine[..|old(spine)|] == old(spine) && fresh(spine[|old(spine)|])
    {
      var n := new Node(x);
      if tail != null {
        tail.next := n;
      } else {
        head := n;
      }
      tail := n;
      spine := spine + [n];
      contents := contents + [x];
    }

    method RemoveFirst() returns (x: T)
      requires Valid() && contents != []
      modifies this
      ensures Valid() && x == old(contents)[0] && contents == old(contents)[1..]
      ensures spine == old(spine)[1..]
    {
      var n := head;
      x := n.data;
      head := n.next;
      if head == null {
        tail := null;
      }
      spine := spine[1..];
      contents := contents[1..];
    }

    // Walks from the head to unlink the newest node again.
    method RemoveLast()
      requires Valid() && contents != []
      modifies this, spine
      ensures Valid() && contents == old(contents)[..|old(contents)| - 1]
      ensures spine == old(spine)[..|old(spine)| - 1]
    {
      ghost var last := |spine| - 1;
      if head == tail {
        head, tail := null, null;
        assert last == 0;
      } else {
        var p := head;
        ghost var k := 0;
        while p.next != tail
          invariant 0 <= k < last && p == spine[k] && Valid() && spine == old(spine) && contents == old(contents)
          decreases last - k
        {
          assert p.next == spine[k + 1];
          p := p.next;
          k := k + 1;
        }
        assert spine[k].next == spine[k + 1];
        assert k == last - 1;
        p.next := null;
        tail := p;
      }
      spine := spine[..last];
      contents := contents[..last];
    }

    method Clear()
      requires Valid()
      modifies this
      ensures Valid() && contents == [] && spine == []
    {
      head, tail := null, null;
      spine, contents := [], [];
    }
  }
}
