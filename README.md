# A verified model of `PriorityQueue<T>`

`PriorityQueue<T>` (index.ts) is a bucket-per-priority queue. It keeps three pieces of state:

- `_items`: one FIFO array per numeric priority.
- `keys`: every priority seen so far, sorted by `sortKeys`.
- `_isReversed`: whether `keys` is ascending (the default) or descending.

`add` appends to a bucket and registers a new priority, then re-sorts the keys. `getNext` shifts the front element out of the first non-empty bucket in `keys` order. `remove` splices out the first `===` match of an element. The `isReversed` setter re-sorts the keys. The `items` setter drains caller-supplied arrays into `add`.

The model is a Dafny class `PriorityQueue<T(==)>` with these fields:

- `reversed: bool`
- `keys: seq<int>`
- `items: map<int, seq<T>>`

Every state-changing operation is a method with `modifies this`; the two getters are functions that read the state (`IsReversed`, `Items`), and the comparator `sort` is the function `Keys.Compare`. The methods preserve the class invariant `Valid()`:

- `keys` is strictly ascending, or strictly descending when `reversed` is set. It is therefore duplicate-free.
- `keys` lists exactly the priorities that have a bucket.

The ghost function `Entries()` is the queue's meaning: the stored elements, each tagged with its priority, in the order `getNext` hands them out. It is defined as `Schedule(keys, items)`, which lists bucket by bucket in `keys` order, front first within a bucket. The lemmas about `Schedule` state the dequeue discipline:

- Priority first: priorities never go against the key order.
- FIFO within a priority: the priority-`p` elements of the schedule are exactly bucket `p`.
- `getNext` takes the head of the schedule.
- `add` appends to one priority's elements.
- Re-sorting the keys leaves every priority's elements alone.

Files:

- `wrappers.dfy`: `Option`, the "no element" signal of `getNext`.
- `keys.dfy`: the comparator `sort`, the numeric key sort, reversal, the key orders, and the uniqueness of an ordered key list.
- `buckets.dfy`: `indexOf`, `splice(i, 1)`, and `Schedule` with its lemmas.
- `priority_queue.dfy`: the class.
- `scenarios.dfy`: the repository's test cases as client methods, each with the outcome the test expects as its postcondition, plus `RemoveAcrossBuckets`, which is not one of the tests and shows the cross-bucket search of `remove`. `KnownKeys`, `TakeThree`, `TakeTwo`, `ThreePriorities`, `ThreeAtOne`, `ThreeNames`, `RemoveMocha` and `SetTwoBuckets` are helpers that build or drain the queues the scenarios share.

Element equality is Dafny's `==` on `T`. For a class type that is reference identity, which is what `===` does on objects. The scenarios use a small class `Test` to show this.

## Model

| member | source | states |
|---|---|---|
| Keys.Compare | index.ts:57-59 | The comparator never returns 0, and it is positive exactly when `n1 > n2`. |
| Keys.Sort | index.ts:67 | The sorted key list is a permutation of the input and is non-decreasing. It is strictly ascending when the input has no duplicates. |
| Keys.Reverse | index.ts:70-72 | Reversal keeps the length and puts element `i` at position `len-1-i`, so it is a permutation. |
| Keys.Arrange | index.ts:64-73 | The list `sortKeys` leaves is a permutation of the old list, strictly ordered in the direction of the flag when the old list had no duplicates. |
| Keys.OrderedUnique | index.ts:64-73 | Two lists ordered in the same direction that hold the same priorities are equal, so the sorted key list is determined by the set of priorities. |
| Keys.ArrangeCanonical | index.ts:89-93 | Sorting a duplicate-free key list yields the unique ordered listing of its priorities, whatever sort algorithm is used. |
| Keys.FlagRoundTrip | index.ts:17-23 | Setting the flag to the other direction and back restores the original key order. |
| Buckets.IndexOf | index.ts:89 | `indexOf` returns -1 exactly when the element is absent; otherwise it returns the first position holding it. |
| Buckets.RemoveAt | index.ts:114 | `splice(i, 1)` removes exactly the element at `i`. Earlier elements stay in place and later ones move up one place, so relative order is kept. |
| Buckets.ScheduleOfPriority | index.ts:132-140 | FIFO within a priority: the elements of priority `p`, in dequeue order, are exactly bucket `p` in bucket order when `p` is known, and there are none otherwise. |
| Buckets.ScheduleOfEveryPriority | index.ts:132-140 | The same, for every priority at once. |
| Buckets.SchedulePriorities | index.ts:132-140 | Every element in the dequeue order carries a known priority and sits in that priority's bucket. |
| Buckets.ScheduleOrdered | index.ts:129-141 | Priority first: along the dequeue order, priorities never go against the key order. They ascend by default and descend when reversed. |
| Buckets.ScheduleIgnores | index.ts:132 | A bucket whose priority is not in `keys` cannot be reached by `getNext`. |
| Buckets.ScheduleSkipsEmpty | index.ts:134-137 | Leading empty buckets contribute nothing to the dequeue order. |
| Buckets.EmptyPrefixKept | index.ts:134-140 | Shifting the first non-empty bucket leaves the empty buckets before it empty. |
| Buckets.FromBucket | index.ts:132-140 | From the first non-empty bucket on, the dequeue order is that bucket followed by the later buckets. |
| Buckets.ShiftedSchedule | index.ts:129-141 | Shifting the front of the first non-empty bucket removes exactly the head of the dequeue order, and that head is the shifted element. |
| Buckets.RelistedSchedule | index.ts:17-23 | Listing the same priorities in another order leaves each priority's elements and their order unchanged, so flipping the flag does not disturb FIFO order. |
| Buckets.AppendedSchedule | index.ts:81-97 | After `add(d, q)`, the elements of priority `q` are the old ones followed by `d`, and every other priority's elements are unchanged. |
| PriorityQueues.PriorityQueue.constructor | index.ts:15-29 | A new queue is ascending, has no keys and no buckets, and is empty. |
| PriorityQueues.PriorityQueue.IsReversed | index.ts:16 | `keys` is ordered in the direction the getter returns. With two or more keys that direction is unique: the result is true exactly when the first key is larger than the last. With fewer keys both directions fit. |
| PriorityQueues.PriorityQueue.Items | index.ts:30 | The getter's map has one bucket per known priority, and each bucket is that priority's elements in dequeue order. |
| PriorityQueues.PriorityQueue.SetReversed | index.ts:17-23 | Only the flag and the order of `keys` change. The set of keys and the buckets stay the same, every priority's elements are unchanged, and setting the current value changes nothing. |
| PriorityQueues.PriorityQueue.SortKeys | index.ts:64-73 | `keys` becomes the sorted (then, if reversed, reversed) permutation of the old keys, strictly ordered when they had no duplicates. Buckets and flag are untouched. |
| PriorityQueues.PriorityQueue.Add | index.ts:81-97 | The element is appended to bucket `priority`, which is created if missing, and every other bucket is unchanged. The priority joins `keys` only if it was absent, and the invariant holds afterwards. |
| PriorityQueues.PriorityQueue.Remove | index.ts:106-121 | Returns true exactly when a bucket exists at `priority` and some bucket holds the element. On true, one bucket that held the element loses its first occurrence by splice. On false, nothing changes. `keys` never changes. |
| PriorityQueues.PriorityQueue.GetNext | index.ts:129-144 | Returns `None` exactly when every bucket in `keys` is empty, which is when the queue is empty, and then nothing changes. Otherwise it returns the front of the first non-empty bucket and shifts that bucket only, which is exactly the head of `Entries()`, and the rest is the new `Entries()`. |
| PriorityQueues.PriorityQueue.SetItems | index.ts:31-49 | Each bucket becomes the old bucket followed by the supplied sequence for that priority. A priority gets a bucket only if it had one or is supplied a non-empty sequence. The invariant holds, and every supplied sequence is left empty. |
| PriorityQueues.PriorityQueue.Drain | index.ts:40-47 | Shifting a sequence empty into `add` appends the whole sequence, in order, to bucket `priority`. An empty sequence creates no bucket. |
| Scenarios.AddOne | test/Queue.spec.ts:6-13 | A single added element is the next one. |
| Scenarios.AscendingByDefault | test/Queue.spec.ts:15-27 | Priorities 100, 5 and 105 come out in ascending priority order, and the flag reads false. |
| Scenarios.DescendingWhenReversed | test/Queue.spec.ts:29-43 | With the flag set first, they come out in descending order and the flag reads true. |
| Scenarios.AscendingAgainWhenRestored | test/Queue.spec.ts:45-61 | Clearing the flag after the adds restores ascending order. |
| Scenarios.FifoWithinPriority | test/Queue.spec.ts:63-74 | Three elements at one priority come out in insertion order. |
| Scenarios.RemoveAdded | test/Queue.spec.ts:76-88 | Removing the middle priority's element succeeds and only the other two come out. |
| Scenarios.RemoveExactObject | test/Queue.spec.ts:90-105 | Removing the stored object itself succeeds, and the queue is then empty. |
| Scenarios.KeepSimilarObject | test/Queue.spec.ts:107-120 | A distinct object with the same contents is not removed, and the stored one is still served. |
| Scenarios.KeepUnderWrongPriority | test/Queue.spec.ts:122-137 | Naming a priority without a bucket removes nothing. |
| Scenarios.RemoveAcrossBuckets | index.ts:108-116 | Once the named bucket exists, a match stored under a different priority is removed. |
| Scenarios.EmptyStaysEmpty | test/Queue.spec.ts:139-144 | An empty queue answers `None`, and answers it again on the next call. |
| Scenarios.ItemsGetter | test/Queue.spec.ts:146-157 | Three adds at priority 0 give bucket 0 three elements in the getter's map. |
| Scenarios.ItemsSetter | test/Queue.spec.ts:159-172 | Bulk-loading `{1: [2, 1], 0: [0]}` serves 0, 2, 1. |

## Left out

- The `items` getter returns the live internal object in the source. The model returns a snapshot value. Mutation through that alias bypasses the invariant and is not modelled. In particular, `q.items = q.items` makes the source's setter loop push onto the array it drains; this case is not modelled.
- Priorities are mathematical integers. `parseInt` on the for-in key strings, and non-integer, NaN or floating-point priorities, are not modelled.
- The enumeration order of a for-in loop over an object's keys is modelled as an arbitrary choice among the keys not yet visited. This covers the `remove` scan at index.ts:110 and the setter loop at index.ts:34. Every contract holds for every order. Which bucket `remove` picks when several hold the element is therefore left open, not fixed to the engine's order.
- `undefined` stored as an element is not modelled. The source would stop the drain loop on it and return it indistinguishably from the empty signal.
- The `Array.prototype.sort` algorithm is replaced by a reference insertion sort with the same comparator. Since the key list is duplicate-free, every correct sort gives the same list (`Keys.ArrangeCanonical`).
- PriorityQueues.PriorityQueue.SetItems: the supplied sequences are independent values, so aliasing between the caller's arrays is not modelled. If one array is supplied under two priorities, the source drains it once (index.ts:43): the priority visited first gets its elements and the other gets no bucket. The model gives both priorities the elements.
- The caller's arrays, which the `items` setter empties in place, are modelled by the returned `supplied` map, in which every sequence is empty.
- `PriorityQueues.PriorityQueue.Add` and `PriorityQueues.PriorityQueue.SetReversed` state the new `keys` by its members and not as the `sortKeys` result. Together with the invariant, `Keys.OrderedUnique` pins the order. `PriorityQueues.PriorityQueue.SortKeys` states the sorted result itself.
- PriorityQueues.PriorityQueue.Add: its contract states the new buckets, not the new dequeue order. How the dequeue order changes is stated separately as `Buckets.AppendedSchedule` over the same before and after states.
- The doc comment at index.ts:103 calls `priority` "the priority of the item to remove", which suggests the removal is limited to that priority. The code at index.ts:108-116 only checks that the named bucket exists and then searches every bucket. The model follows the code (`Scenarios.RemoveAcrossBuckets`).
