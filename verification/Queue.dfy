/** The doubly linked packet queue of queue.c, refining a sequence. */
module Queue {
  import opened Wrappers

  datatype Entry<T> = Entry(elem: T, size: nat, lastSent: int)

  // struct q_elem
  class QElem<T> {
    var size: nat
    var lastSent: int
    var elem: T
    var prev: QElem?<T>
    var next: QElem?<T>

    constructor (elem: T, size: nat)
      ensures this.elem == elem && this.size == size && lastSent == 0
      ensures prev == null && next == null
    {
      this.elem, this.size := elem, size;
      lastSent, prev, next := 0, null, null;
    }

    ghost function Value(): Entry<T>
      reads this
    {
      Entry(elem, size, lastSent)
    }
  }

  // struct queue
  class Queue<T> {
    var first: QElem?<T>
    var last: QElem?<T>
    var nbElem: int
    ghost var nodes: seq<QElem<T>>

    // The neighbour found at a position of the chain, null past either end.
    static ghost function At(nodes: seq<QElem<T>>, i: int): QElem?<T> {
      if 0 <= i < |nodes| then nodes[i] else null
    }

    // The forward and the backward chain both run through nodes, between first and last.
    ghost predicate Valid()
      reads this, nodes
    {
      && first == At(nodes, 0)
      && last == At(nodes, |nodes| - 1)
      && (forall i, j :: 0 <= i < j < |nodes| ==> nodes[i] != nodes[j])
      && (forall i {:trigger nodes[i].next} :: 0 <= i < |nodes| ==> nodes[i].next == At(nodes, i + 1))
      && (forall i {:trigger nodes[i].prev} :: 0 <= i < |nodes| ==> nodes[i].prev == At(nodes, i - 1))
    }

    ghost function Contents(): (s: seq<Entry<T>>)
      reads this, nodes
      ensures |s| == |nodes|
      ensures forall i :: 0 <= i < |s| ==> s[i] == nodes[i].Value()
    {
      seq(|nodes|, i requires 0 <= i < |nodes| reads this, nodes => nodes[i].Value())
    }

    // new_queue
    constructor ()
      ensures Valid() && Contents() == [] && nbElem == 0 && nodes == []
    {
      first, last, nbElem, nodes := null, null, 0, [];
    }

    // add_to_queue: the element goes to the end; nothing already queued is touched.
    method AddToQueue(elem: T, size: nat)
      requires Valid()
      modifies this, nodes
      ensures Valid() && Contents() == old(Contents()) + [Entry(elem, size, 0)]
      ensures |nodes| > 0 && nodes[..|nodes| - 1] == old(nodes) && fresh(nodes[|nodes| - 1])
      ensures nbElem == old(nbElem)
    {
      ghost var before := Contents();
      hide Contents;
      var e := new QElem(elem, size);
      if first == null {
        first := e;
      } else {
        e.prev := last;
        last.next := e;
      }
      last := e;
      nodes := nodes + [e];
      assert forall i :: 0 <= i < |nodes| - 1 ==> nodes[i] == old(nodes)[i];
      Appended(before, Entry(elem, size, 0));
    }

    lemma Appended(before: seq<Entry<T>>, e: Entry<T>)
      requires |nodes| == |before| + 1 && nodes[|before|].Value() == e
      requires forall i :: 0 <= i < |before| ==> nodes[i].Value() == before[i]
      ensures Contents() == before + [e]
    {
    }

    // queue_update_time: only the head is stamped.
    method QueueUpdateTime(now: int)
      requires Valid()
      modifies nodes
      ensures Valid() && nodes == old(nodes)
      ensures var c := old(Contents());
        Contents() == if c == [] then [] else [c[0].(lastSent := now)] + c[1..]
    {
      if first != null {
        first.lastSent := now;
        assert nodes == old(nodes);
      }
    }

    // queue_get_time
    method QueueGetTime() returns (t: Option<int>)
      requires Valid()
      ensures t == if Contents() == [] then None else Some(Contents()[0].lastSent)
    {
      t := if first != null then Some(first.lastSent) else None;
    }

    // get_from_queue: takes the head out; the rest keeps its order, sizes and times.
    method GetFromQueue() returns (elem: Option<T>)
      requires Valid()
      modifies this, nodes
      ensures Valid()
      ensures elem == if old(Contents()) == [] then None else Some(old(Contents())[0].elem)
      ensures Contents() == if old(Contents()) == [] then [] else old(Contents())[1..]
      ensures nodes == if old(nodes) == [] then [] else old(nodes)[1..]
      ensures nbElem == old(nbElem)
    {
      if first == null {
        return None;
      }
      elem := Some(first.elem);
      var newFirst := first.next;
      assert newFirst == At(nodes, 1);
      if newFirst == null {
        last, first := null, null;
      } else {
        first := newFirst;
        newFirst.prev := null;
      }
      nodes := nodes[1..];
      assert forall i :: 0 <= i < |nodes| ==> nodes[i] == old(nodes)[i + 1];
    }

    // The flush loop of packet_sender.c: take elements until there is none.
    method TakeAll()
      requires Valid()
      modifies this, nodes
      ensures Valid() && Contents() == [] && nodes == []
      ensures nbElem == old(nbElem)
    {
      hide Valid, At;
      var elem := GetFromQueue();
      while elem != None
        invariant Valid() && nbElem == old(nbElem)
        invariant forall i :: 0 <= i < |nodes| ==> nodes[i] in old(nodes)
        invariant elem == None ==> nodes == []
        decreases elem != None, |nodes|
      {
        elem := GetFromQueue();
      }
    }

    // A write through the pointer that peek_at_queue returned: it reaches the head's element only.
    method WriteHead(elem: T)
      requires Valid() && Contents() != []
      modifies nodes
      ensures Valid() && nodes == old(nodes)
      ensures Contents() == [old(Contents())[0].(elem := elem)] + old(Contents())[1..]
    {
      first.elem := elem;
      assert nodes == old(nodes);
    }

    // peek_at_queue
    method PeekAtQueue() returns (elem: Option<T>)
      requires Valid()
      ensures elem == if Contents() == [] then None else Some(Contents()[0].elem)
    {
      elem := if first == null then None else Some(first.elem);
    }

    // peek_at_size
    method PeekAtSize() returns (size: nat)
      requires Valid()
      ensures size == if Contents() == [] then 0 else Contents()[0].size
    {
      size := if first == null then 0 else first.size;
    }
  }
}
