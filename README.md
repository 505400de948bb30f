# Bucketed priority queue

A Dafny model of `PriorityQueue<T>`. This is a queue that keeps one FIFO
sub-queue for each of the four priorities `highest`, `high`, `low` and
`lowest`. The sub-queues sit in an array indexed by the priority's ordinal.

- `offer` and `add` append an element to one sub-queue. Without a priority they use `lowest`.
- `poll` and `peek` scan the sub-queues from `highest` to `lowest` and take the head of the first non-empty one.
- `remove` and `element` are the throwing forms of `poll` and `peek`.
- `size(p)` is the length of one sub-queue and `size()` is the sum of all four.
- The iterator walks the sub-queues level by level, and each one in FIFO order.

The project has three files:

- `bucket_spec.dfy` (module `BucketSpec`) is the abstract view. The state is a
  `seq<seq<T>>` of sub-queues in rank order. It defines:
  - `Total`, the number of elements;
  - `Flatten`, the service order;
  - `FirstNonEmpty`, `Head` and `Rest`, what `poll` takes and what it leaves;
  - `Enqueue`, what `offer` does;
  - `Drain`, what repeated polling yields.

  The lemmas relate these functions to each other.
- `priority_queue.dfy` (module `PriorityQueues`) holds the two classes:
  - `PriorityQueue`, whose state is `queues: array<seq<T>>` of length 4. Each method
    is proved against the functions above.
  - `PriorityQueueIterator`, a two-level cursor made of the current queue index
    and the part of the current sub-queue's iterator that is not yet consumed.

  The module also has two client loops. `Collect` is a for-each over the iterator
  and `PollAll` polls until null.
- `scenarios.dfy` (module `Scenarios`) holds the unit-test scenarios. Each one is a
  method whose postcondition states what the test asserts.

How Java's values are represented:

- A Java `null` return (from `poll`, `peek` or the iterator's `next`) is `None` of `Option<T>`.
- The possibly-null argument of `add` is an `Option<T>`.
- Elements stored in the queue are plain, non-null `T`.
- A thrown `NullPointerException` or `NoSuchElementException` is the `Failure` case of `Result<R>`.

`offer(item, priority)` begins with `assert(item != null)`. The model expresses
this through the argument's type: `OfferAt` takes a `T`, which cannot be null.
`offer` never returns false. With a null item, either the Java `assert` fails
(when assertions are enabled) or `ArrayDeque.offer` throws NullPointerException.
On every non-null item it returns true, and so does the model.

## Model

| member | source | states |
|---|---|---|
| `BucketSpec.Values` | PriorityQueue.java:68-73 | the four priorities come in declaration order, and the i-th one has ordinal i |
| `BucketSpec.FirstNonEmpty` | PriorityQueue.java:159-165 | the scan stops at the first non-empty sub-queue: every earlier one is empty, and it is past the end only when all are empty |
| `BucketSpec.FlattenLength` | PriorityQueue.java:240-248 | the total size (sum of the sub-queue sizes) is the length of the service order |
| `BucketSpec.TotalAppend` | PriorityQueue.java:240-248 | the size of a run of sub-queues is additive over concatenation, which is what lets `size()` accumulate bucket by bucket |
| `BucketSpec.EmptyIffAllEmpty` | PriorityQueue.java:155-169 | the queue is empty exactly when every sub-queue is empty |
| `BucketSpec.HeadIsFirst` | PriorityQueue.java:155-169 | poll/peek answer null exactly when the queue is empty, and otherwise the first element of the level-major service order |
| `BucketSpec.RestIsTail` | PriorityQueue.java:155-169 | poll on a non-empty queue removes exactly the first element of the service order and the size drops by one; on an empty queue nothing changes |
| `BucketSpec.RestChangesOneBucket` | PriorityQueue.java:159-165 | poll changes only the sub-queue it took the head from (losing that head); every other sub-queue is unchanged |
| `BucketSpec.EnqueueFlatten` | PriorityQueue.java:108-113 | offering x at level k places x after everything waiting at levels up to k and before everything at later levels (FIFO within a level) |
| `BucketSpec.EnqueueTotal` | PriorityQueue.java:108-113 | offering adds exactly one element to the total size |
| `BucketSpec.DrainIsFlatten` | PriorityQueue.java:155-169 | polling until null yields every element: all of `highest` in insertion order, then `high`, `low`, `lowest` |
| `PriorityQueues.PriorityQueue.constructor` | PriorityQueue.java:79-88 | a new queue has one empty sub-queue per priority and size 0 |
| `PriorityQueues.PriorityQueue.Offer` | PriorityQueue.java:96-99 | `offer(item)` appends to the `lowest` sub-queue and returns true |
| `PriorityQueues.PriorityQueue.OfferAt` | PriorityQueue.java:108-113 | appends item to sub-queue `priority`, returns true, leaves the other sub-queues unchanged, size grows by one |
| `PriorityQueues.PriorityQueue.Add` | PriorityQueue.java:122-125 | `add(item)` is `add(item, lowest)` |
| `PriorityQueues.PriorityQueue.AddAt` | PriorityQueue.java:136-147 | a null item throws NullPointerException and leaves the queue unchanged; otherwise the result and effect are those of offer |
| `PriorityQueues.PriorityQueue.Poll` | PriorityQueue.java:155-169 | returns the head of the most urgent non-empty sub-queue and removes it there alone; null and no change exactly when the queue is empty; size drops by one otherwise |
| `PriorityQueues.PriorityQueue.Remove` | PriorityQueue.java:178-186 | throws NoSuchElementException on an empty queue; otherwise returns and removes what poll would |
| `PriorityQueues.PriorityQueue.Peek` | PriorityQueue.java:195-209 | returns what poll would return (null when empty) and changes nothing |
| `PriorityQueues.PriorityQueue.Element` | PriorityQueue.java:218-226 | throws NoSuchElementException on an empty queue; otherwise the first element of the service order, without changing anything |
| `PriorityQueues.PriorityQueue.SizeOf` | PriorityQueue.java:233-235 | `size(p)` is the number of elements waiting at priority p |
| `PriorityQueues.PriorityQueue.Size` | PriorityQueue.java:240-248 | `size()` is the sum of the four sub-queue sizes, which is the number of elements the queue will hand out |
| `PriorityQueues.PriorityQueue.Iterator` | PriorityQueue.java:255-257 | the new iterator has exactly the service order of the queue still to yield |
| `PriorityQueues.PriorityQueueIterator.constructor` | PriorityQueue.java:24-29 | starting at queue 0 with that sub-queue's iterator, what is still to come is the concatenation of the sub-queues |
| `PriorityQueues.PriorityQueueIterator.HasNext` | PriorityQueue.java:36-48 | skips exhausted sub-queues without losing or reordering any element; true exactly when an element remains, and then the current sub-queue's iterator has one; false only once the index reaches the number of priorities |
| `PriorityQueues.PriorityQueueIterator.Next` | PriorityQueue.java:55-57 | yields the next element of the remaining order and consumes it; past the end it returns null and stays at the end |
| `PriorityQueues.Collect` | PriorityQueue_test.java:236-247 | a for-each over the queue yields exactly `size()` elements, level-major and FIFO within a level |
| `PriorityQueues.ForEach` | PriorityQueue_test.java:240-247 | running an iterator to the end with hasNext/next yields exactly what it had still to yield, in order |
| `PriorityQueues.PollAll` | PriorityQueue.java:155-169 | polling until null returns the elements in the same order the iterator yields them and leaves the queue empty |
| `Scenarios.EmptyQueueMustTier` | PriorityQueue_test.java:50-79 | a fresh queue has size 0, add(null) throws NullPointerException and leaves the size 0, remove and element throw NoSuchElementException |
| `Scenarios.EmptyQueue` | PriorityQueue_test.java:150-161 | a fresh queue has size 0, and poll and peek give null |
| `Scenarios.SingleMessage` | PriorityQueue_test.java:163-184 | one message offered at `high`: size 1 before and after peek, size(high) is 1, peek and poll return it, then size 0, the second poll gives null and the size stays 0 |
| `Scenarios.SingleMessageMustTier` | PriorityQueue_test.java:81-107 | the same through add, element and remove: size 1 before and after element, size(high) is 1, element and remove return it, size 0, the second remove throws NoSuchElementException and the size stays 0 |
| `Scenarios.FillThreePerLevel` | PriorityQueue_test.java:186-193 | offering (or, at PriorityQueue_test.java:109-116, adding) three labelled messages per priority, level by level, leaves each sub-queue holding its three labels in order |
| `Scenarios.FillLevel` | PriorityQueue_test.java:189-192 | the inner loop of the fill: three messages `p.0`, `p.1`, `p.2` offered (or added, :112-115) at priority p fill that empty sub-queue in insertion order and change no other |
| `Scenarios.FilledOrder` | PriorityQueue_test.java:195-205 | the filled queue has 12 elements and service order "highest.0" … "lowest.2" |
| `Scenarios.SizesOfFilled` | PriorityQueue_test.java:195-205 | on the filled queue size() is 12 and size(p) is 3 for each of the four priorities |
| `Scenarios.PeekThenPoll` | PriorityQueue_test.java:207-219 | rounds of peek then poll: at every round peek gives what poll then takes, together they yield the whole service order, and the queue ends empty |
| `Scenarios.ElementThenRemove` | PriorityQueue_test.java:130-142 | rounds of element then remove: at every round element gives what remove then takes, together they yield the whole service order, and the queue ends empty |
| `Scenarios.TwelveMessagesPeekPoll` | PriorityQueue_test.java:186-219 | size 12, 3 per priority; the peeked sequence equals the polled one; the polled labels come level-major and FIFO; the final size is 0 |
| `Scenarios.TwelveMessagesElementRemove` | PriorityQueue_test.java:109-142 | the same twelve messages through add, element and remove: size 12, 3 per priority; the sequence of elements equals the removed one; level-major, FIFO within a level; the final size is 0 |
| `Scenarios.TwelveMessagesIterate` | PriorityQueue_test.java:226-247 | the iterator yields the twelve labels level-major, FIFO within a level |

## Left out

- Message.java is not part of this model: it is an immutable holder of an optional string. Scenarios use the string itself as the element.
- Java's `assert` in `offer` and `ArrayDeque.offer`'s reaction to null are not modelled. `offer` takes a non-null `T`, so a null cannot reach it.
- A null `Priority` argument is not modelled. In Java, `offer(item, null)`, `add(item, null)` with a non-null item, and `size(null)` throw NullPointerException at `priority.ordinal()` (PriorityQueue.java:112, :146, :234). In the model `Priority` is a datatype, so a priority cannot be null.
- `PriorityQueues.PriorityQueue.Size`: does not model 32-bit `int` wrap-around of the accumulated sum, because that would need more than 2^31 - 1 stored elements. `SizeOf` likewise returns the mathematical length.
- The iterator runs over the sub-queues as they were when it was created. Java's iterator reads the live `ArrayDeque`s and is fail-fast, and neither behaviour is modelled. Neither is `Iterator.remove`, which the class does not override.
- The model covers only the operations the class defines. Members inherited from `AbstractQueue` (`addAll`, `clear`, `contains`, …) are not modelled.
- There is no concurrency in the source and none in the model. Object identity of elements is replaced by value equality.
- The JUnit runner and its result printing (PriorityQueue_test.java:255-275) are I/O and are not modelled.
