/** The doubly linked queue of the bus (Bus.c): it is a sequence, enqueued at one end and dequeued at the other. */
module BusFifo {

  class QueueItem<T> {
    var item: T
    var parent: QueueItem?<T>   // the item enqueued after this one
    var next: QueueItem?<T>     // the item enqueued before this one

    constructor (item: T)
      ensures this.item == item && parent == null && next == null
    {
      this.item := item;
      parent := null;
      next := null;
    }
  }

  class Fifo<T> {
    var head: QueueItem?<T>     // gQueueHead, the newest item
    var tail: QueueItem?<T>     // gQueueTail, the oldest item
    ghost var contents: seq<T>          // the queue as a sequence, oldest first
    ghost var items: seq<QueueItem<T>>  // the chain that holds it
    ghost var repr: set<QueueItem<T>>   // its elements

    /** Head and tail are the ends of the chain, and the two links of neighbours are mutually inverse. */
    ghost predicate Valid()
      reads this, repr
    {
      && (forall k :: 0 <= k < |items| ==> items[k] in repr)
      && (head == null <==> items == []) && (tail == null <==> items == [])
      && (items != [] ==> tail == items[0] && head == items[|items| - 1])
      && (forall j, k :: 0 <= j < k < |items| ==> items[j] != items[k])
      && (forall k :: 0 <= k < |items| ==> Linked(items, k))
      && |contents| == |items| && (forall k :: 0 <= k < |items| ==> contents[k] == items[k].item)
    }

    static ghost predicate Linked(items: seq<QueueItem<T>>, k: nat)
      requires k < |items|
      reads items[k]
    {
      && items[k].parent == (if k + 1 < |items| then items[k + 1] else null)
      && items[k].next == (if k > 0 then items[k - 1] else null)
    }

    constructor ()
      ensures Valid() && contents == [] && repr == {}
    {
      head := null;
      tail := null;
      contents, items, repr := [], [], {};
    }

    /** bus_fifo_IsEmpty. */
    predicate IsEmpty()
      reads this, repr
      requires Valid()
      ensures IsEmpty() <==> contents == []
    {
      head == null
    }

    /** bus_fifo_Enqueue. */
    method Enqueue(item: T)
      requires Valid()
      modifies this, repr
      ensures Valid() && contents == old(contents) + [item]
      ensures fresh(repr - old(repr))
    {
      var queueItem := new QueueItem(item);
      if IsEmpty() {
        head := queueItem;
        tail := queueItem;
      } else {
        head.parent := queueItem;
        queueItem.next := head;
        head := queueItem;
      }
      contents := contents + [item];
      items := items + [queueItem];
      repr := repr + {queueItem};
      forall k | 0 <= k < |items| ensures Linked(items, k) {
        assert k < |old(items)| ==> old(Linked(items, k));
      }
    }

    /** bus_fifo_Dequeue. */
    method Dequeue(none: T) returns (found: bool, item: T)
      requires Valid()
      modifies this, repr
      ensures Valid() && repr == old(repr)
      ensures found == (old(contents) != [])
      ensures found ==> item == old(contents)[0] && contents == old(contents)[1..]
      ensures !found ==> item == none && contents == old(contents)
    {
      if tail == null { return false, none; }
      var queueItem := tail;
      assert Linked(items, 0);
      tail := queueItem.parent;
      if tail == null { head := null; } else { tail.next := null; }
      queueItem.parent := null;
      contents := contents[1..];
      items := items[1..];
      forall k | 0 <= k < |items| ensures Linked(items, k) {
        assert old(Linked(items, k + 1));
      }
      return true, queueItem.item;
    }
  }
}
