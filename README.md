# queue.ts in Dafny

A model of the string queues in `queue.ts` and of the properties their code
promises. The file holds three families of containers, all of them
in-memory, single-threaded and total.

- **Dense-array queues** (`FIFOQUEUE`, `LIFOQUEUE`): a `string[]` changed
  with `push`, `shift` and `pop`. In `dense_queues.dfy` they are classes with
  a `seq<string>` field that the methods reassign.
- **Sparse index-map queues** (`FIFOQUEUE_V2`, `LIFOQUEUE_V2`): a plain
  object keyed by integers, plus the cursors `first` and `last`. In
  `sparse_queues.dfy` they are classes with a `map<int, string>` field, the
  cursors, and a ghost `Contents` sequence. Their `Valid()` predicate is the
  representation invariant: the live keys are exactly `[first, last)`, or
  `[0, last)` for the LIFO variant, and `Contents` lists their values by
  ascending key. `getQueue` is `Object.values`. Its ascending-key order, as
  OrdinaryOwnPropertyKeys prescribes (section 10.1.11.1 of ECMA-262), is the
  function `ObjectValues` in `index_map.dfy`, and the lemmas there show it
  reads the live range in key order.
- **Adapter composition** (`QueueAdapter` over a `StoreAdaptee` and a
  `TypeAdaptee`), in `adapters.dfy`.
  - The two stores are classes: `ObjectStoreAdaptee` (an array with cursors)
    and `ArrayStoreAdaptee` (a real array queue).
  - The two interfaces are datatypes with one constructor per
    implementation. Dispatch is a `match`.
  - Every store has two views. `GetAll` is what `getAll` returns. `Live` is
    the window that `getOne` and `delOne` act on.
  - The `ObjectStoreAdaptee` behaviour is reproduced as written. Its `delOne`
    only moves a cursor, so `getAll`, and with it the adapter's `getQueue`
    and `size`, still reports removed elements. Its `addOne` writes at
    `last`, so after a LIFO removal it overwrites the removed slot instead
    of appending.

`queue_spec.dfy` holds the abstract queue that every variant is proved
against:
- `Option`, the `string | undefined` of queue.ts;
- `Type`, the FIFO/LIFO enum;
- `Pick`, the element a dequeue under a policy takes;
- `Drop`, what remains after that dequeue.

`IQueuable` documents `size` as "the number of items in the queue"
(queue.ts:14-15). `QueueAdapter.size` returns `getAll().length`
(queue.ts:274), and over an `ObjectStoreAdaptee` that length includes
removed elements (see `ObjectStoreFifoKeepsRemoved`). The model keeps that
behaviour.

## Model

| member | source | states |
|---|---|---|
| QueueSpec.Pick | queue.ts:26-29 | A dequeue yields nothing exactly when the contents are empty; otherwise it yields an element of the contents. |
| QueueSpec.Drop | queue.ts:48-50 | Removing from empty contents leaves them empty. Otherwise exactly one element goes: FIFO splits the contents into the picked head and the rest, LIFO into the rest and the picked tail. |
| DenseQueues.FifoQueue.constructor | queue.ts:19 | A new FIFOQUEUE is empty. |
| DenseQueues.FifoQueue.Enqueue | queue.ts:21-24 | `push` appends the value after the unchanged earlier elements, and the method returns the new contents. |
| DenseQueues.FifoQueue.Dequeue | queue.ts:26-29 | `shift` returns the oldest element and removes it; on an empty queue it returns None and changes nothing. |
| DenseQueues.FifoQueue.Size | queue.ts:35-37 | size is the number of elements getQueue returns. |
| DenseQueues.LifoQueue.constructor | queue.ts:41 | A new LIFOQUEUE is empty. |
| DenseQueues.LifoQueue.Enqueue | queue.ts:43-46 | `push` appends the value and the method returns the new contents. |
| DenseQueues.LifoQueue.Dequeue | queue.ts:48-50 | `pop` returns the newest element and removes it; on an empty queue it returns None and changes nothing. |
| DenseQueues.LifoQueue.Size | queue.ts:56-58 | size is the number of elements getQueue returns. |
| DenseQueues.FifoQueueOrder | queue.ts:21-29 | Enqueuing v1..vn into a new FIFOQUEUE and dequeuing n times yields v1..vn; one more dequeue yields None. |
| DenseQueues.LifoQueueOrder | queue.ts:43-50 | Enqueuing v1..vn into a new LIFOQUEUE and dequeuing n times yields vn..v1; one more dequeue yields None. |
| IndexMap.MinKey | queue.ts:88 | The key chosen is in the set and no key in the set is smaller. |
| IndexMap.ObjectValues | queue.ts:88 | `Object.values` lists exactly one value per key. |
| IndexMap.ValuesRemoveMin | queue.ts:88 | Deleting the least key removes exactly the first value of the listing. |
| IndexMap.RangeSize | queue.ts:118-120 | A map whose keys are exactly [lo, hi) has hi - lo entries. |
| IndexMap.ValuesOfRange | queue.ts:86-93 | Over keys exactly [lo, hi), `Object.values` has hi - lo entries and lists m[lo], m[lo + 1], ..., m[hi - 1] in that order. |
| SparseQueues.FifoQueueV2.constructor | queue.ts:69-71 | A new FIFOQUEUE_V2 has no keys, first == last == 0, and satisfies the invariant. |
| SparseQueues.FifoQueueV2.GetQueue | queue.ts:86-89 | `Object.values` of the map is the queue's contents, oldest first. |
| SparseQueues.FifoQueueV2.Size | queue.ts:91-93 | The count of stored values equals last - first and the number of queued elements. |
| SparseQueues.FifoQueueV2.Enqueue | queue.ts:73-76 | The value is written under key `last` and `last` advances. The invariant is kept, the value is appended to the contents, and the new contents are returned. |
| SparseQueues.FifoQueueV2.Dequeue | queue.ts:78-84 | It returns None exactly when first == last, and then changes nothing. Otherwise it deletes key `first`, advances `first`, keeps the invariant, and returns the oldest element, which leaves the contents. |
| SparseQueues.LifoQueueV2.constructor | queue.ts:97-98 | A new LIFOQUEUE_V2 has no keys, last == 0, and satisfies the invariant. |
| SparseQueues.LifoQueueV2.GetQueue | queue.ts:113-116 | `Object.values` of the map is the queue's contents, oldest first. |
| SparseQueues.LifoQueueV2.Size | queue.ts:118-120 | The cursor `last` equals the number of stored entries and of queued elements. |
| SparseQueues.LifoQueueV2.Enqueue | queue.ts:100-103 | The value is written under key `last` and `last` advances. The invariant is kept, the value is appended to the contents, and the new contents are returned. |
| SparseQueues.LifoQueueV2.Dequeue | queue.ts:105-111 | It returns None exactly when last == 0, and then changes nothing. Otherwise it deletes key `last - 1`, moves `last` back, keeps the invariant, and returns the newest element, which leaves the contents. |
| SparseQueues.FifoQueueV2Order | queue.ts:73-84 | Enqueuing v1..vn into a new FIFOQUEUE_V2 and dequeuing n times yields v1..vn; one more dequeue yields None. |
| SparseQueues.LifoQueueV2Order | queue.ts:100-111 | Enqueuing v1..vn into a new LIFOQUEUE_V2 and dequeuing n times yields vn..v1; one more dequeue yields None. |
| SparseQueues.FifoQueueV2Count | queue.ts:91-93 | After three enqueues, one dequeue and one enqueue, size counts three live entries. The listing is the last three values, although keys 0..3 have been used (first == 1, last == 4). |
| Adapters.TypeAdaptee.GetType | queue.ts:237-247 | FifoAdaptee reports FIFO and LifoAdaptee reports LIFO, and each policy comes from exactly one adaptee. |
| Adapters.Assign | queue.ts:171 | `a[i] = v` with i at most the length: the result has v at i and every other old element unchanged. It grows by one exactly when i is the length. |
| Adapters.ObjectStoreAdaptee.constructor | queue.ts:147-149 | A new object store is empty with both cursors at 0. |
| Adapters.ObjectStoreAdaptee.GetOne | queue.ts:155-168 | getOne yields None exactly when first == last; otherwise it yields the element at `first` (FIFO) or at `last - 1` (LIFO) of the live window. |
| Adapters.ObjectStoreAdaptee.AddOne | queue.ts:170-172 | `listObject[last++] = value`: it keeps first <= last <= length, writes at the old `last`, and appends the value to the live window. |
| Adapters.ObjectStoreAdaptee.DelOne | queue.ts:174-191 | delOne never changes listObject. It does nothing when the cursors meet; otherwise it advances `first` (FIFO) or moves `last` back (LIFO). It keeps the invariant and removes the picked element from the live window. |
| Adapters.ArrayStoreAdaptee.constructor | queue.ts:195 | A new array store is empty. |
| Adapters.ArrayStoreAdaptee.GetOne | queue.ts:201-214 | getOne yields None exactly when the array is empty; otherwise element 0 (FIFO) or the last element (LIFO). |
| Adapters.ArrayStoreAdaptee.AddOne | queue.ts:216-218 | `push` appends the value. |
| Adapters.ArrayStoreAdaptee.DelOne | queue.ts:220-233 | `shift` or `pop` removes exactly the front or back element; an empty array stays empty. |
| Adapters.StoreAdaptee.GetOne | queue.ts:138-143 | Whichever store is held, getOne peeks at the element the policy picks from the live elements. |
| Adapters.StoreAdaptee.AddOne | queue.ts:138-143 | Whichever store is held, addOne appends to the live elements. The array store pushes; the object store writes at `last` and advances it. |
| Adapters.StoreAdaptee.DelOne | queue.ts:138-143 | Whichever store is held, delOne removes the picked live element. The array store shifts or pops; the object store leaves listObject as it is and moves a cursor. |
| Adapters.QueueAdapter.constructor | queue.ts:253-256 | The adapter holds the given store and ordering adaptees. |
| Adapters.QueueAdapter.Enqueue | queue.ts:258-261 | addOne then getAll. The value joins the live elements and the result is the store's getAll. Over an array store that is the old contents plus the value; over an object store it is the `a[last] = value` assignment. |
| Adapters.QueueAdapter.Dequeue | queue.ts:263-267 | It returns exactly what getOne reported under the adapter's policy before the call, which is the policy's pick of the live elements. delOne under the same policy then removes that element. Over an object store, getAll is unchanged. |
| Adapters.QueueAdapter.Size | queue.ts:273-275 | size is the length of getAll, i.e. of getQueue. |
| Adapters.NewStore | queue.ts:147-149 | A new store of either kind has no elements: an ObjectStoreAdaptee with empty listObject and both cursors at 0, or an ArrayStoreAdaptee with the empty array of queue.ts:195. |
| Adapters.EnqueueAll | queue.ts:258-261 | Enqueuing v1..vn appends them, in order, to the live elements of either store. |
| Adapters.DequeueAllFifo | queue.ts:263-267 | Under FifoAdaptee, n dequeues from live v1..vn yield v1..vn and leave nothing live. |
| Adapters.DequeueAllLifo | queue.ts:263-267 | Under LifoAdaptee, n dequeues from live v1..vn yield vn..v1 and leave nothing live. |
| Adapters.DequeueLifoStep | queue.ts:263-267 | Under LifoAdaptee, with v1..v(n-k) live, a dequeue yields v(n-k) and leaves v1..v(n-k-1). |
| Adapters.AdapterOrder | queue.ts:249-276 | Over either store, a new adapter fed v1..vn then dequeued n times yields v1..vn with FifoAdaptee and vn..v1 with LifoAdaptee; one more dequeue yields None. |
| Adapters.AdapterExample | queue.ts:278-292 | Over an ArrayStoreAdaptee with a LifoAdaptee, the commented results hold: two strings and size 2 after the enqueues, the second string dequeued, then only the first string and size 1. |
| Adapters.ObjectStoreLifoKeepsRemoved | queue.ts:174-191 | Over an ObjectStoreAdaptee with LIFO, after a, b, c are enqueued, two dequeues return c then b. getQueue still returns [a, b, c] and size is 3. |
| Adapters.ObjectStoreLifoOverwrites | queue.ts:170-172 | Over an ObjectStoreAdaptee with LIFO, enqueue a and b, dequeue b, then enqueue c. The enqueue overwrites b's slot: getQueue is [a, c] and size stays 2. |
| Adapters.LifoObjectStoreAfterTwoDequeues | queue.ts:170-191 | Over a fresh ObjectStoreAdaptee with LIFO, enqueue a, b, c and dequeue twice. listObject is still [a, b, c], first == 0 and last == 1. |
| Adapters.ObjectStoreLifoOverwritesMiddle | queue.ts:170-172 | From that state, enqueuing d overwrites b's slot in the middle of listObject. getQueue is [a, d, c], so d is not last, and size stays 3. |
| Adapters.ObjectStoreFifoKeepsRemoved | queue.ts:174-191 | Over an ObjectStoreAdaptee with FIFO, after a and b are enqueued, dequeues return a, b, then None. getQueue still returns [a, b] and size is 2. |

## Left out

- The `IQueuable` interface (queue.ts:4-16) has no Dafny counterpart of its own. Each class implements its four operations directly, and the shared abstract meaning is `Pick`/`Drop` in `QueueSpec`.
- `StoreAdaptee` and `TypeAdaptee` are datatypes with one constructor per implementation, not open interfaces. A store written later would need a new constructor.
- The `default` arms of the `switch` statements (queue.ts:165-166, 186-187, 211-212, 230-231) are not modelled. `Type` has exactly two values, so they cannot be reached.
- `getQueue` and `getAll` return the internal array by reference in queue.ts. Here they return a `seq<string>` value, so callers cannot alias or mutate a queue's storage through the result.
- Cursors and lengths are unbounded integers. JavaScript number semantics (floating point, precision loss past 2^53) are not modelled.
- The O(n) cost of `shift` (the comment at queue.ts:27) is a performance remark, not behaviour, and is not modelled.
- The Execute block (queue.ts:278-292) runs as top-level side effects when the module loads. Here it is the method `AdapterExample`, whose out-parameters are the commented results.
- Dense `FIFOQUEUE`/`LIFOQUEUE`, `GetQueue`: it has no contract of its own, because it returns the field as it is. Its meaning is carried by `Enqueue`'s `r == queueArray` and by `Size`.
- `StoreAdaptee.GetAll`, `ObjectStoreAdaptee.GetAll`, `ArrayStoreAdaptee.GetAll` and `QueueAdapter.GetQueue` (queue.ts:139, 151-153, 197-199, 269-271): they have no contract of their own, because each returns the held store's array as it is. Their results are stated by the `Enqueue`, `Dequeue` and `Size` contracts above.
