/** The adapter composition of queue.ts: a QueueAdapter that joins a storage
    adaptee (ObjectStoreAdaptee or ArrayStoreAdaptee) to an ordering adaptee
    (FifoAdaptee or LifoAdaptee) and presents enqueue, dequeue, getQueue and
    size on top of their getAll, getOne, addOne and delOne.

    Each adaptee interface becomes a datatype with one constructor per
    implementation, and dispatch is a `match`. Every store has two views:
    GetAll, what `getAll` returns, and Live, the elements between the store's
    ends that getOne and delOne act on. For ArrayStoreAdaptee they coincide;
    ObjectStoreAdaptee's delOne only moves a cursor, so its GetAll keeps
    elements that are no longer live. */
module Adapters {
  import opened QueueSpec

  /** The ordering adaptees: each returns a fixed ordering policy. */
  datatype TypeAdaptee = FifoAdaptee | LifoAdaptee {
    function GetType(): (t: Type)
      ensures t == FIFO <==> this == FifoAdaptee
      ensures t == LIFO <==> this == LifoAdaptee
    {
      match this
      case FifoAdaptee => FIFO
      case LifoAdaptee => LIFO
    }
  }

  /** The JavaScript assignment `a[i] = v` for an index no greater than the
      length: it overwrites element i, or appends when i is the length. */
  function Assign(a: seq<string>, i: nat, v: string): (r: seq<string>)
    requires i <= |a|
    ensures |r| == if i == |a| then |a| + 1 else |a|
    ensures r[i] == v
    ensures forall j :: 0 <= j < |a| && j != i ==> r[j] == a[j]
  {
    if i == |a| then a + [v] else a[i := v]
  }

  /** A string array with cursors: the live elements are listObject[first..last]. */
  class ObjectStoreAdaptee {
    var listObject: seq<string>
    var first: int
    var last: int

    ghost predicate Valid()
      reads this
    {
      0 <= first <= last <= |listObject|
    }

    constructor ()
      ensures Valid()
      ensures listObject == [] && first == 0 && last == 0
    {
      listObject := [];
      first, last := 0, 0;
    }

    function GetAll(): seq<string>
      reads this
    {
      listObject
    }

    /** The elements between the cursors. */
    function Live(): seq<string>
      reads this
      requires Valid()
    {
      listObject[first..last]
    }

    /** Peeks at the element `t` would remove: None exactly when the cursors meet. */
    function GetOne(t: Type): (r: Option<string>)
      reads this
      requires Valid()
      ensures r == None <==> first == last
      ensures r == Pick(Live(), t)
    {
      if first == last then None
      else match t
        case FIFO => Some(listObject[first])
        case LIFO => Some(listObject[last - 1])
    }

    /** `listObject[last++] = value`: overwrites or appends at `last`. */
    method AddOne(value: string)
      requires Valid()
      modifies this
      ensures Valid()
      ensures listObject == Assign(old(listObject), old(last), value)
      ensures first == old(first) && last == old(last) + 1
      ensures Live() == old(Live()) + [value]
    {
      listObject := Assign(listObject, last, value);
      last := last + 1;
    }

    /** Moves one cursor inward and leaves listObject as it is; does nothing
        when the cursors meet. */
    method DelOne(t: Type)
      requires Valid()
      modifies this
      ensures Valid()
      ensures listObject == old(listObject)
      ensures old(first) == old(last) ==> first == old(first) && last == old(last)
      ensures old(first) < old(last) && t == FIFO ==> first == old(first) + 1 && last == old(last)
      ensures old(first) < old(last) && t == LIFO ==> first == old(first) && last == old(last) - 1
      ensures Live() == Drop(old(Live()), t)
    {
      if first == last {
        return;
      }
      match t
      case FIFO =>
        assert listObject[first + 1..last] == Live()[1..];
        first := first + 1;
      case LIFO =>
        assert listObject[first..last - 1] == Live()[..last - 1 - first];
        last := last - 1;
    }
  }

  /** A string array that `push`, `shift` and `pop` change. */
  class ArrayStoreAdaptee {
    var queueArray: seq<string>

    constructor ()
      ensures queueArray == []
    {
      queueArray := [];
    }

    function GetAll(): seq<string>
      reads this
    {
      queueArray
    }

    /** Peeks at the element `t` would remove: None exactly when the array is empty. */
    function GetOne(t: Type): (r: Option<string>)
      reads this
      ensures r == None <==> queueArray == []
      ensures r == Pick(queueArray, t)
    {
      if |queueArray| == 0 then None
      else match t
        case FIFO => Some(queueArray[0])
        case LIFO => Some(queueArray[|queueArray| - 1])
    }

    /** `push`. */
    method AddOne(value: string)
      modifies this
      ensures queueArray == old(queueArray) + [value]
    {
      queueArray := queueArray + [value];
    }

    /** `shift` or `pop`; either leaves an empty array empty. */
    method DelOne(t: Type)
      modifies this
      ensures queueArray == Drop(old(queueArray), t)
    {
      match t
      case FIFO =>
        if queueArray != [] {
          queueArray := queueArray[1..];
        }
      case LIFO =>
        if queueArray != [] {
          queueArray := queueArray[..|queueArray| - 1];
        }
    }
  }

  /** The storage adaptee interface, dispatching to whichever store it holds. */
  datatype StoreAdaptee = ObjectStore(objectStore: ObjectStoreAdaptee) | ArrayStore(arrayStore: ArrayStoreAdaptee) {

    function Repr(): set<object>
    {
      match this
      case ObjectStore(s) => {s}
      case ArrayStore(s) => {s}
    }

    ghost predicate Valid()
      reads Repr()
    {
      ObjectStore? ==> objectStore.Valid()
    }

    function GetAll(): seq<string>
      reads Repr()
    {
      match this
      case ObjectStore(s) => s.GetAll()
      case ArrayStore(s) => s.GetAll()
    }

    /** The elements getOne and delOne act on: all of an array store, the
        window between the cursors of an object store. */
    function Live(): (r: seq<string>)
      reads Repr()
      requires Valid()
    {
      match this
      case ObjectStore(s) => s.Live()
      case ArrayStore(s) => s.queueArray
    }

    function GetOne(t: Type): (r: Option<string>)
      reads Repr()
      requires Valid()
      ensures r == Pick(Live(), t)
    {
      match this
      case ObjectStore(s) => s.GetOne(t)
      case ArrayStore(s) => s.GetOne(t)
    }

    method AddOne(value: string)
      requires Valid()
      modifies Repr()
      ensures Valid()
      ensures Live() == old(Live()) + [value]
      ensures ArrayStore? ==> arrayStore.queueArray == old(arrayStore.queueArray) + [value]
      ensures ObjectStore? ==>
                objectStore.listObject == Assign(old(objectStore.listObject), old(objectStore.last), value) &&
                objectStore.first == old(objectStore.first) && objectStore.last == old(objectStore.last) + 1
    {
      match this
      case ObjectStore(s) => s.AddOne(value);
      case ArrayStore(s) => s.AddOne(value);
    }

    method DelOne(t: Type)
      requires Valid()
      modifies Repr()
      ensures Valid()
      ensures Live() == Drop(old(Live()), t)
      ensures ArrayStore? ==> arrayStore.queueArray == Drop(old(arrayStore.queueArray), t)
      ensures ObjectStore? ==> objectStore.listObject == old(objectStore.listObject)
      ensures ObjectStore? && old(objectStore.first) == old(objectStore.last) ==>
                objectStore.first == old(objectStore.first) && objectStore.last == old(objectStore.last)
      ensures ObjectStore? && old(objectStore.first) < old(objectStore.last) && t == FIFO ==>
                objectStore.first == old(objectStore.first) + 1 && objectStore.last == old(objectStore.last)
      ensures ObjectStore? && old(objectStore.first) < old(objectStore.last) && t == LIFO ==>
                objectStore.first == old(objectStore.first) && objectStore.last == old(objectStore.last) - 1
    {
      match this
      case ObjectStore(s) => s.DelOne(t);
      case ArrayStore(s) => s.DelOne(t);
    }
  }

  class QueueAdapter {
    const storeAdaptee: StoreAdaptee
    const typeAdaptee: TypeAdaptee

    ghost predicate Valid()
      reads storeAdaptee.Repr()
    {
      storeAdaptee.Valid()
    }

    constructor (storeAdaptee: StoreAdaptee, typeAdaptee: TypeAdaptee)
      ensures this.storeAdaptee == storeAdaptee && this.typeAdaptee == typeAdaptee
    {
      this.storeAdaptee := storeAdaptee;
      this.typeAdaptee := typeAdaptee;
    }

    /** addOne, then getAll. */
    method Enqueue(value: string) returns (r: seq<string>)
      requires Valid()
      modifies storeAdaptee.Repr()
      ensures Valid()
      ensures storeAdaptee.Live() == old(storeAdaptee.Live()) + [value]
      ensures r == storeAdaptee.GetAll()
      ensures storeAdaptee.ArrayStore? ==>
                var s := storeAdaptee.arrayStore;
                s.queueArray == old(s.queueArray) + [value]
      ensures storeAdaptee.ObjectStore? ==>
                var s := storeAdaptee.objectStore;
                s.listObject == Assign(old(s.listObject), old(s.last), value) &&
                s.first == old(s.first) && s.last == old(s.last) + 1
    {
      storeAdaptee.AddOne(value);
      r := storeAdaptee.GetAll();
    }

    /** getOne under the adapter's policy, then delOne under the same policy;
        yields what getOne saw. */
    method Dequeue() returns (r: Option<string>)
      requires Valid()
      modifies storeAdaptee.Repr()
      ensures Valid()
      ensures r == old(storeAdaptee.GetOne(typeAdaptee.GetType()))
      ensures r == Pick(old(storeAdaptee.Live()), typeAdaptee.GetType())
      ensures storeAdaptee.Live() == Drop(old(storeAdaptee.Live()), typeAdaptee.GetType())
      ensures storeAdaptee.ArrayStore? ==>
                var s := storeAdaptee.arrayStore;
                s.queueArray == Drop(old(s.queueArray), typeAdaptee.GetType())
      ensures storeAdaptee.ObjectStore? ==>
                var s := storeAdaptee.objectStore;
                s.listObject == old(s.listObject) &&
                (old(s.first) == old(s.last) ==> s.first == old(s.first) && s.last == old(s.last)) &&
                (old(s.first) < old(s.last) && typeAdaptee == FifoAdaptee ==>
                   s.first == old(s.first) + 1 && s.last == old(s.last)) &&
                (old(s.first) < old(s.last) && typeAdaptee == LifoAdaptee ==>
                   s.first == old(s.first) && s.last == old(s.last) - 1)
    {
      var value := storeAdaptee.GetOne(typeAdaptee.GetType());
      storeAdaptee.DelOne(typeAdaptee.GetType());
      r := value;
    }

    function GetQueue(): seq<string>
      reads storeAdaptee.Repr()
    {
      storeAdaptee.GetAll()
    }

    /** The length of getAll, not the number of live elements. */
    function Size(): (n: nat)
      reads storeAdaptee.Repr()
      ensures n == |GetQueue()|
    {
      |storeAdaptee.GetAll()|
    }
  }

  /** A fresh store of either kind, wrapped as a storage adaptee. */
  method NewStore(useObjectStore: bool) returns (store: StoreAdaptee)
    ensures store.Valid() && fresh(store.Repr())
    ensures store.ObjectStore? == useObjectStore
    ensures store.Live() == [] && store.GetAll() == []
  {
    if useObjectStore {
      var s := new ObjectStoreAdaptee();
      store := ObjectStore(s);
    } else {
      var s := new ArrayStoreAdaptee();
      store := ArrayStore(s);
    }
  }

  /** Enqueuing v1..vn appends them to the live elements, in that order. */
  method EnqueueAll(q: QueueAdapter, vs: seq<string>)
    requires q.Valid()
    modifies q.storeAdaptee.Repr()
    ensures q.Valid()
    ensures q.storeAdaptee.Live() == old(q.storeAdaptee.Live()) + vs
  {
    ghost var live0 := q.storeAdaptee.Live();
    for i := 0 to |vs|
      invariant q.Valid()
      invariant q.storeAdaptee.Live() == live0 + vs[..i]
    {
      assert vs[..i + 1] == vs[..i] + [vs[i]];
      var _ := q.Enqueue(vs[i]);
    }
    assert vs[..|vs|] == vs;
  }

  /** Under FifoAdaptee, n dequeues from live elements v1..vn yield v1..vn and
      leave nothing live. */
  method DequeueAllFifo(q: QueueAdapter, vs: seq<string>) returns (out: seq<string>)
    requires q.Valid() && q.typeAdaptee == FifoAdaptee
    requires q.storeAdaptee.Live() == vs
    modifies q.storeAdaptee.Repr()
    ensures q.Valid()
    ensures out == vs
    ensures q.storeAdaptee.Live() == []
  {
    out := [];
    for k := 0 to |vs|
      invariant q.Valid()
      invariant q.storeAdaptee.Live() == vs[k..]
      invariant out == vs[..k]
    {
      var r := q.Dequeue();
      assert vs[..k + 1] == vs[..k] + [vs[k]];
      out := out + [r.value];
    }
    assert vs[..|vs|] == vs;
  }

  /** Under LifoAdaptee, n dequeues from live elements v1..vn yield vn..v1 and
      leave nothing live. */
  method DequeueAllLifo(q: QueueAdapter, vs: seq<string>) returns (out: seq<string>)
    requires q.Valid() && q.typeAdaptee == LifoAdaptee
    requires q.storeAdaptee.Live() == vs
    modifies q.storeAdaptee.Repr()
    ensures q.Valid()
    ensures |out| == |vs|
    ensures forall j :: 0 <= j < |vs| ==> out[j] == vs[|vs| - 1 - j]
    ensures q.storeAdaptee.Live() == []
  {
    out := [];
    for k := 0 to |vs|
      invariant q.Valid()
      invariant q.storeAdaptee.Live() == vs[..|vs| - k]
      invariant |out| == k
      invariant forall j :: 0 <= j < k ==> out[j] == vs[|vs| - 1 - j]
    {
      var r := DequeueLifoStep(q, vs, k);
      out := out + [r.value];
    }
  }

  /** One iteration of DequeueAllLifo: with v1..v(n-k) live, a dequeue under
      LifoAdaptee yields v(n-k) and leaves v1..v(n-k-1). */
  method DequeueLifoStep(q: QueueAdapter, vs: seq<string>, k: nat) returns (r: Option<string>)
    requires q.Valid() && q.typeAdaptee == LifoAdaptee
    requires k < |vs| && q.storeAdaptee.Live() == vs[..|vs| - k]
    modifies q.storeAdaptee.Repr()
    ensures q.Valid()
    ensures q.storeAdaptee.Live() == vs[..|vs| - k - 1]
    ensures r == Some(vs[|vs| - 1 - k])
  {
    r := q.Dequeue();
  }

  /** Over either store, enqueuing v1..vn into a fresh adapter and then
      dequeuing n times yields v1..vn under FifoAdaptee and vn..v1 under
      LifoAdaptee; one more dequeue yields None. */
  method AdapterOrder(useObjectStore: bool, typeAdaptee: TypeAdaptee, vs: seq<string>)
    returns (out: seq<string>, extra: Option<string>)
    ensures |out| == |vs|
    ensures typeAdaptee == FifoAdaptee ==> out == vs
    ensures typeAdaptee == LifoAdaptee ==> forall j :: 0 <= j < |vs| ==> out[j] == vs[|vs| - 1 - j]
    ensures extra == None
  {
    var store := NewStore(useObjectStore);
    var q := new QueueAdapter(store, typeAdaptee);
    EnqueueAll(q, vs);
    assert store.Live() == vs;
    match typeAdaptee {
      case FifoAdaptee =>
        out := DequeueAllFifo(q, vs);
      case LifoAdaptee =>
        out := DequeueAllLifo(q, vs);
    }
    extra := q.Dequeue();
  }

  /** The demonstration at the end of queue.ts: an adapter over an
      ArrayStoreAdaptee with a LifoAdaptee. */
  method AdapterExample()
    returns (all1: seq<string>, size1: nat, removed: Option<string>, all2: seq<string>, size2: nat)
    ensures all1 == ["this is first string", "this is second string"] && size1 == 2
    ensures removed == Some("this is second string")
    ensures all2 == ["this is first string"] && size2 == 1
  {
    var lifoAdaptee := LifoAdaptee;
    var arrayStoreAdaptee := new ArrayStoreAdaptee();
    var adapter := new QueueAdapter(ArrayStore(arrayStoreAdaptee), lifoAdaptee);
    var _ := adapter.Enqueue("this is first string");
    var _ := adapter.Enqueue("this is second string");
    all1, size1 := adapter.GetQueue(), adapter.Size();
    removed := adapter.Dequeue();
    all2, size2 := adapter.GetQueue(), adapter.Size();
  }

  /** Over an ObjectStoreAdaptee with a LifoAdaptee, dequeues return the
      newest live values, but getQueue and size still report them. */
  method ObjectStoreLifoKeepsRemoved(a: string, b: string, c: string)
    returns (r1: Option<string>, r2: Option<string>, all: seq<string>, size: nat)
    ensures r1 == Some(c) && r2 == Some(b)
    ensures all == [a, b, c] && size == 3
  {
    var store := new ObjectStoreAdaptee();
    var adapter := new QueueAdapter(ObjectStore(store), LifoAdaptee);
    var _ := adapter.Enqueue(a);
    var _ := adapter.Enqueue(b);
    var _ := adapter.Enqueue(c);
    assert store.Live() == [a, b, c] && store.listObject == [a, b, c];
    r1 := adapter.Dequeue();
    assert store.Live() == [a, b] && store.listObject == [a, b, c];
    r2 := adapter.Dequeue();
    all, size := adapter.GetQueue(), adapter.Size();
  }

  /** Over an ObjectStoreAdaptee with a LifoAdaptee, an enqueue after a
      dequeue overwrites the slot at `last` instead of appending: the removed
      value is replaced and the length of getQueue stays the same. */
  method ObjectStoreLifoOverwrites(a: string, b: string, c: string)
    returns (r: Option<string>, all: seq<string>, size: nat)
    ensures r == Some(b)
    ensures all == [a, c] && size == 2
  {
    var store := new ObjectStoreAdaptee();
    var adapter := new QueueAdapter(ObjectStore(store), LifoAdaptee);
    var _ := adapter.Enqueue(a);
    var _ := adapter.Enqueue(b);
    assert store.Live() == [a, b] && store.listObject == [a, b];
    r := adapter.Dequeue();
    assert store.Live() == [a] && store.listObject == [a, b];
    all := adapter.Enqueue(c);
    size := adapter.Size();
  }

  /** A LIFO adapter over a fresh ObjectStoreAdaptee after a, b, c are
      enqueued and two are dequeued: listObject still holds all three, and
      only a is live. */
  method LifoObjectStoreAfterTwoDequeues(a: string, b: string, c: string)
    returns (store: ObjectStoreAdaptee, adapter: QueueAdapter)
    ensures fresh(store)
    ensures adapter.storeAdaptee == ObjectStore(store) && adapter.typeAdaptee == LifoAdaptee
    ensures store.Valid()
    ensures store.listObject == [a, b, c] && store.first == 0 && store.last == 1
  {
    store := new ObjectStoreAdaptee();
    adapter := new QueueAdapter(ObjectStore(store), LifoAdaptee);
    var _ := adapter.Enqueue(a);
    var _ := adapter.Enqueue(b);
    var _ := adapter.Enqueue(c);
    assert store.listObject == [a, b, c] && store.first == 0 && store.last == 3;
    var r1 := adapter.Dequeue();
    assert store.listObject == [a, b, c] && store.first == 0 && store.last == 2;
    var r2 := adapter.Dequeue();
    assert store.listObject == [a, b, c] && store.first == 0 && store.last == 1;
  }

  /** Over an ObjectStoreAdaptee with a LifoAdaptee, an enqueue after two
      dequeues overwrites a slot in the middle of listObject: the new value
      does not end up last in getQueue, and size does not grow. */
  method ObjectStoreLifoOverwritesMiddle(a: string, b: string, c: string, d: string)
    returns (all: seq<string>, size: nat)
    ensures all == [a, d, c] && size == 3
  {
    var store, adapter := LifoObjectStoreAfterTwoDequeues(a, b, c);
    all := adapter.Enqueue(d);
    size := adapter.Size();
  }

  /** Over an ObjectStoreAdaptee with a FifoAdaptee, draining the queue leaves
      getQueue and size unchanged, and a further dequeue yields None. */
  method ObjectStoreFifoKeepsRemoved(a: string, b: string)
    returns (r1: Option<string>, r2: Option<string>, r3: Option<string>, all: seq<string>, size: nat)
    ensures r1 == Some(a) && r2 == Some(b) && r3 == None
    ensures all == [a, b] && size == 2
  {
    var store := new ObjectStoreAdaptee();
    var adapter := new QueueAdapter(ObjectStore(store), FifoAdaptee);
    var _ := adapter.Enqueue(a);
    var _ := adapter.Enqueue(b);
    assert store.listObject == [a, b] && store.first == 0 && store.last == 2;
    r1 := adapter.Dequeue();
    assert store.listObject == [a, b] && store.first == 1 && store.last == 2;
    r2 := adapter.Dequeue();
    assert store.listObject == [a, b] && store.first == 2 && store.last == 2;
    r3 := adapter.Dequeue();
    all, size := adapter.GetQueue(), adapter.Size();
  }
}
