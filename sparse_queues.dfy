/** FIFOQUEUE_V2 and LIFOQUEUE_V2 of queue.ts: a plain object keyed by integers
    (a `map<int, string>`) and integer cursors. Enqueue writes under key `last`
    and advances it; dequeue deletes one key and moves a cursor; getQueue is
    `Object.values` of the object. */
module SparseQueues {
  import opened QueueSpec
  import opened IndexMap

  class FifoQueueV2 {
    // abstract view: the queued values, oldest first
    ghost var Contents: seq<string>

    var queueArray: map<int, string>
    var first: int
    var last: int

    /** The live keys are exactly the integers in [first, last), and Contents
        lists their values by ascending key. */
    ghost predicate Valid()
      reads this
    {
      0 <= first <= last &&
      (forall k :: k in queueArray <==> first <= k < last) &&
      |Contents| == last - first &&
      forall k {:trigger queueArray[k]} :: first <= k < last ==> k in queueArray && queueArray[k] == Contents[k - first]
    }

    constructor ()
      ensures Valid()
      ensures queueArray == map[] && first == 0 && last == 0
      ensures Contents == []
    {
      queueArray := map[];
      first, last := 0, 0;
      Contents := [];
    }

    /** `Object.values`: the stored values by ascending key, which are the queue's contents. */
    method GetQueue() returns (r: seq<string>)
      requires Valid()
      ensures r == Contents
    {
      ValuesOfRange(queueArray, first, last);
      r := ObjectValues(queueArray);
    }

    /** `Object.values(...).length`: the number of stored entries. */
    method Size() returns (n: nat)
      requires Valid()
      ensures n == last - first
      ensures n == |Contents|
    {
      ValuesOfRange(queueArray, first, last);
      n := |ObjectValues(queueArray)|;
    }

    /** Writes `value` under key `last`, advances `last`, returns the new contents. */
    method Enqueue(value: string) returns (r: seq<string>)
      requires Valid()
      modifies this
      ensures Valid()
      ensures queueArray == old(queueArray)[old(last) := value]
      ensures first == old(first) && last == old(last) + 1
      ensures Contents == old(Contents) + [value]
      ensures r == Contents
    {
      ghost var oldObject, oldContents := queueArray, Contents;
      queueArray := queueArray[last := value];
      Contents := Contents + [value];
      forall k | first <= k <= last
        ensures k in queueArray && queueArray[k] == Contents[k - first]
      {
        if k < last {
          assert oldObject[k] == oldContents[k - first];
        }
      }
      last := last + 1;
      r := GetQueue();
    }

    /** Yields None when first == last; otherwise deletes key `first`,
        advances `first` and yields the deleted value. */
    method Dequeue() returns (r: Option<string>)
      requires Valid()
      modifies this
      ensures Valid()
      ensures r == None <==> old(first) == old(last)
      ensures old(first) == old(last) ==> queueArray == old(queueArray) && first == old(first)
      ensures old(first) < old(last) ==>
                queueArray == old(queueArray) - {old(first)} && first == old(first) + 1
      ensures last == old(last)
      ensures r == Pick(old(Contents), FIFO)
      ensures Contents == Drop(old(Contents), FIFO)
    {
      if first == last {
        return None;
      }
      var value := queueArray[first];
      queueArray := queueArray - {first};
      first := first + 1;
      Contents := Contents[1..];
      return Some(value);
    }
  }

  class LifoQueueV2 {
    // abstract view: the queued values, oldest first
    ghost var Contents: seq<string>

    var queueArray: map<int, string>
    var last: int

    /** The live keys are exactly the integers in [0, last), and Contents
        lists their values by ascending key. */
    ghost predicate Valid()
      reads this
    {
      0 <= last &&
      (forall k :: k in queueArray <==> 0 <= k < last) &&
      |Contents| == last &&
      forall k {:trigger queueArray[k]} :: 0 <= k < last ==> k in queueArray && queueArray[k] == Contents[k]
    }

    constructor ()
      ensures Valid()
      ensures queueArray == map[] && last == 0
      ensures Contents == []
    {
      queueArray := map[];
      last := 0;
      Contents := [];
    }

    /** `Object.values`: the stored values by ascending key, which are the queue's contents. */
    method GetQueue() returns (r: seq<string>)
      requires Valid()
      ensures r == Contents
    {
      ValuesOfRange(queueArray, 0, last);
      r := ObjectValues(queueArray);
    }

    /** Returns the cursor `last`, which is the number of stored entries. */
    method Size() returns (n: nat)
      requires Valid()
      ensures n == |queueArray|
      ensures n == |Contents|
    {
      RangeSize(queueArray, 0, last);
      n := last;
    }

    /** Writes `value` under key `last`, advances `last`, returns the new contents. */
    method Enqueue(value: string) returns (r: seq<string>)
      requires Valid()
      modifies this
      ensures Valid()
      ensures queueArray == old(queueArray)[old(last) := value]
      ensures last == old(last) + 1
      ensures Contents == old(Contents) + [value]
      ensures r == Contents
    {
      ghost var oldObject, oldContents := queueArray, Contents;
      queueArray := queueArray[last := value];
      Contents := Contents + [value];
      forall k | 0 <= k <= last
        ensures k in queueArray && queueArray[k] == Contents[k]
      {
        if k < last {
          assert oldObject[k] == oldContents[k];
        }
      }
      last := last + 1;
      r := GetQueue();
    }

    /** Yields None when last == 0; otherwise deletes key `last - 1`,
        moves `last` back and yields the deleted value. */
    method Dequeue() returns (r: Option<string>)
      requires Valid()
      modifies this
      ensures Valid()
      ensures r == None <==> old(last) == 0
      ensures old(last) == 0 ==> queueArray == old(queueArray) && last == 0
      ensures old(last) > 0 ==>
                queueArray == old(queueArray) - {old(last) - 1} && last == old(last) - 1
      ensures r == Pick(old(Contents), LIFO)
      ensures Contents == Drop(old(Contents), LIFO)
    {
      if last == 0 {
        return None;
      }
      var value := queueArray[last - 1];
      queueArray := queueArray - {last - 1};
      last := last - 1;
      Contents := Contents[..last];
      return Some(value);
    }
  }

  /** Enqueuing v1..vn into a fresh FifoQueueV2, then dequeuing n times, yields v1..vn;
      one more dequeue yields None. */
  method FifoQueueV2Order(vs: seq<string>) returns (out: seq<string>, extra: Option<string>)
    ensures out == vs
    ensures extra == None
  {
    var q := new FifoQueueV2();
    for i := 0 to |vs|
      invariant q.Valid()
      invariant q.Contents == vs[..i]
    {
      assert vs[..i + 1] == vs[..i] + [vs[i]];
      var _ := q.Enqueue(vs[i]);
    }
    assert vs[..|vs|] == vs;
    out := [];
    for k := 0 to |vs|
      invariant q.Valid()
      invariant q.Contents == vs[k..]
      invariant out == vs[..k]
    {
      var r := q.Dequeue();
      assert vs[..k + 1] == vs[..k] + [vs[k]];
      out := out + [r.value];
    }
    extra := q.Dequeue();
  }

  /** Enqueuing v1..vn into a fresh LifoQueueV2, then dequeuing n times, yields vn..v1;
      one more dequeue yields None. */
  method LifoQueueV2Order(vs: seq<string>) returns (out: seq<string>, extra: Option<string>)
    ensures |out| == |vs|
    ensures forall j :: 0 <= j < |vs| ==> out[j] == vs[|vs| - 1 - j]
    ensures extra == None
  {
    var q := new LifoQueueV2();
    for i := 0 to |vs|
      invariant q.Valid()
      invariant q.Contents == vs[..i]
    {
      assert vs[..i + 1] == vs[..i] + [vs[i]];
      var _ := q.Enqueue(vs[i]);
    }
    assert vs[..|vs|] == vs;
    out := [];
    for k := 0 to |vs|
      invariant q.Valid()
      invariant q.Contents == vs[..|vs| - k]
      invariant |out| == k
      invariant forall j :: 0 <= j < k ==> out[j] == vs[|vs| - 1 - j]
    {
      var r := q.Dequeue();
      out := out + [r.value];
    }
    extra := q.Dequeue();
  }

  /** Three enqueues, one dequeue and one more enqueue leave three live entries,
      although four keys have been used. */
  method FifoQueueV2Count(a: string, b: string, c: string, d: string)
    returns (size: nat, contents: seq<string>, first: int, last: int)
    ensures size == 3
    ensures contents == [b, c, d]
    ensures first == 1 && last == 4
  {
    var q := new FifoQueueV2();
    var all := q.Enqueue(a);
    all := q.Enqueue(b);
    all := q.Enqueue(c);
    assert q.Contents == [a, b, c] && q.first == 0 && q.last == 3;
    var removed := q.Dequeue();
    assert q.Contents == [b, c];
    all := q.Enqueue(d);
    assert q.Contents == [b, c, d];
    size := q.Size();
    contents := q.GetQueue();
    first, last := q.first, q.last;
  }
}
