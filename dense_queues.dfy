/** FIFOQUEUE and LIFOQUEUE of queue.ts: a JavaScript array of strings that
    `push` appends to and `shift` (FIFO) or `pop` (LIFO) takes from. The array
    is a `seq<string>` field that the methods reassign; getQueue returns it by
    value. */
module DenseQueues {
  import opened QueueSpec

  class FifoQueue {
    var queueArray: seq<string>

    constructor ()
      ensures queueArray == []
    {
      queueArray := [];
    }

    /** Appends `value` and returns the new contents. */
    method Enqueue(value: string) returns (r: seq<string>)
      modifies this
      ensures queueArray == old(queueArray) + [value]
      ensures r == queueArray
    {
      queueArray := queueArray + [value];
      r := GetQueue();
    }

    /** `shift`: takes the oldest element, or yields None and changes nothing when empty. */
    method Dequeue() returns (r: Option<string>)
      modifies this
      ensures r == Pick(old(queueArray), FIFO)
      ensures queueArray == Drop(old(queueArray), FIFO)
    {
      if queueArray == [] {
        r := None;
      } else {
        r := Some(queueArray[0]);
        queueArray := queueArray[1..];
      }
    }

    function GetQueue(): seq<string>
      reads this
    {
      queueArray
    }

    function Size(): (n: nat)
      reads this
      ensures n == |GetQueue()|
    {
      |queueArray|
    }
  }

  class LifoQueue {
    var queueArray: seq<string>

    constructor ()
      ensures queueArray == []
    {
      queueArray := [];
    }

    /** Appends `value` and returns the new contents. */
    method Enqueue(value: string) returns (r: seq<string>)
      modifies this
      ensures queueArray == old(queueArray) + [value]
      ensures r == queueArray
    {
      queueArray := queueArray + [value];
      r := GetQueue();
    }

    /** `pop`: takes the newest element, or yields None and changes nothing when empty. */
    method Dequeue() returns (r: Option<string>)
      modifies this
      ensures r == Pick(old(queueArray), LIFO)
      ensures queueArray == Drop(old(queueArray), LIFO)
    {
      if queueArray == [] {
        r := None;
      } else {
        r := Some(queueArray[|queueArray| - 1]);
        queueArray := queueArray[..|queueArray| - 1];
      }
    }

    function GetQueue(): seq<string>
      reads this
    {
      queueArray
    }

    function Size(): (n: nat)
      reads this
      ensures n == |GetQueue()|
    {
      |queueArray|
    }
  }

  /** Enqueuing v1..vn into a fresh FifoQueue, then dequeuing n times, yields v1..vn;
      one more dequeue yields None. */
  method FifoQueueOrder(vs: seq<string>) returns (out: seq<string>, extra: Option<string>)
    ensures out == vs
    ensures extra == None
  {
    var q := new FifoQueue();
    for i := 0 to |vs|
      invariant q.GetQueue() == vs[..i]
    {
      assert vs[..i + 1] == vs[..i] + [vs[i]];
      var _ := q.Enqueue(vs[i]);
    }
    assert vs[..|vs|] == vs;
    out := [];
    for k := 0 to |vs|
      invariant q.GetQueue() == vs[k..]
      invariant out == vs[..k]
    {
      var r := q.Dequeue();
      assert vs[..k + 1] == vs[..k] + [vs[k]];
      out := out + [r.value];
    }
    extra := q.Dequeue();
  }

  /** Enqueuing v1..vn into a fresh LifoQueue, then dequeuing n times, yields vn..v1;
      one more dequeue yields None. */
  method LifoQueueOrder(vs: seq<string>) returns (out: seq<string>, extra: Option<string>)
    ensures |out| == |vs|
    ensures forall j :: 0 <= j < |vs| ==> out[j] == vs[|vs| - 1 - j]
    ensures extra == None
  {
    var q := new LifoQueue();
    for i := 0 to |vs|
      invariant q.GetQueue() == vs[..i]
    {
      assert vs[..i + 1] == vs[..i] + [vs[i]];
      var _ := q.Enqueue(vs[i]);
    }
    assert vs[..|vs|] == vs;
    out := [];
    for k := 0 to |vs|
      invariant q.GetQueue() == vs[..|vs| - k]
      invariant |out| == k
      invariant forall j :: 0 <= j < k ==> out[j] == vs[|vs| - 1 - j]
    {
      var r := q.Dequeue();
      out := out + [r.value];
    }
    extra := q.Dequeue();
  }
}
