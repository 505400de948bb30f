/**
 * PriorityQueue<T>: an array of FIFO sub-queues, one per priority level,
 * indexed by the level's ordinal. Every element is non-null (a Dafny T);
 * where Java passes or returns a possibly-null reference the model uses
 * Option<T>, and Java's exceptions become the Failure case of a Result.
 */
module PriorityQueues {
  import opened BucketSpec

  /** The two exceptions the queue throws. */
  datatype Exception = NullPointerException | NoSuchElementException

  /** The outcome of an operation that either returns normally or throws. */
  datatype Result<R> = Success(value: R) | Failure(error: Exception)

  class PriorityQueue<T> {
    /** The sub-queue of each priority, indexed by ordinal. */
    const queues: array<seq<T>>

    ghost predicate Valid()
    {
      queues.Length == Count
    }

    /** The abstract state: every sub-queue, in rank order. */
    ghost function Buckets(): seq<seq<T>>
      reads queues
    {
      queues[..]
    }

    /** A new queue holds one empty sub-queue per priority. */
    constructor ()
      ensures Valid() && fresh(queues)
      ensures Buckets() == [[], [], [], []]
      ensures Total(Buckets()) == 0
    {
      var qs := new seq<T>[Count];
      for i := 0 to Count
        invariant forall j :: 0 <= j < i ==> qs[j] == []
      {
        qs[Values()[i].Ordinal()] := [];
      }
      queues := qs;
      new;
      assert Buckets() == [[], [], [], []];
      EmptyIffAllEmpty(Buckets());
      FlattenLength(Buckets());
    }

    /** offer(item): the same as OfferAt(item, Lowest). */
    method Offer(item: T) returns (ok: bool)
      requires Valid()
      modifies queues
      ensures ok
      ensures Buckets() == Enqueue(old(Buckets()), Lowest.Ordinal(), item)
    {
      ok := OfferAt(item, Lowest);
    }

    /** offer(item, priority): append item to the sub-queue of priority; never fails. */
    method OfferAt(item: T, priority: Priority) returns (ok: bool)
      requires Valid()
      modifies queues
      ensures ok
      ensures Buckets() == Enqueue(old(Buckets()), priority.Ordinal(), item)
      ensures Total(Buckets()) == Total(old(Buckets())) + 1
    {
      var k := priority.Ordinal();
      EnqueueTotal(queues[..], k, item);
      queues[k] := queues[k] + [item];
      ok := true;
    }

    /** add(item): the same as AddAt(item, Lowest). */
    method Add(item: Option<T>) returns (r: Result<bool>)
      requires Valid()
      modifies queues
      ensures item.None? ==> r == Failure(NullPointerException) && Buckets() == old(Buckets())
      ensures item.Some? ==> r == Success(true) && Buckets() == Enqueue(old(Buckets()), Lowest.Ordinal(), item.value)
    {
      r := AddAt(item, Lowest);
    }

    /** add(item, priority): throws on a null item, otherwise behaves as offer. */
    method AddAt(item: Option<T>, priority: Priority) returns (r: Result<bool>)
      requires Valid()
      modifies queues
      ensures item.None? ==> r == Failure(NullPointerException) && Buckets() == old(Buckets())
      ensures item.Some? ==> r == Success(true) && Buckets() == Enqueue(old(Buckets()), priority.Ordinal(), item.value)
    {
      if item.None? {
        return Failure(NullPointerException);
      }
      var ok := OfferAt(item.value, priority);
      r := Success(ok);
    }

    /**
     * poll(): take the head of the first non-empty sub-queue, scanning from
     * the highest priority; null when the queue is empty.
     */
    method Poll() returns (msg: Option<T>)
      requires Valid()
      modifies queues
      ensures msg == Head(old(Buckets()))
      ensures Buckets() == Rest(old(Buckets()))
      ensures msg.None? <==> Total(old(Buckets())) == 0
      ensures msg.None? ==> Buckets() == old(Buckets())
      ensures msg.Some? ==> Total(Buckets()) == Total(old(Buckets())) - 1
    {
      ghost var qs := queues[..];
      HeadIsFirst(qs);
      RestIsTail(qs);
      FlattenLength(qs);
      msg := None;
      for i := 0 to Count
        invariant queues[..] == qs
        invariant msg.None?
        invariant forall j :: 0 <= j < i ==> qs[j] == []
      {
        var k := Values()[i].Ordinal();
        // ArrayDeque.poll: remove and return the head, or null when empty
        if queues[k] != [] {
          msg := Some(queues[k][0]);
          queues[k] := queues[k][1..];
        }
        if msg.Some? {
          assert FirstNonEmpty(qs) == k;
          break;
        }
      }
    }

    /** remove(): poll, throwing when the queue is empty. */
    method Remove() returns (r: Result<T>)
      requires Valid()
      modifies queues
      ensures Head(old(Buckets())).None? ==> r == Failure(NoSuchElementException)
      ensures Head(old(Buckets())).Some? ==> r == Success(Head(old(Buckets())).value)
      ensures Buckets() == Rest(old(Buckets()))
    {
      var msg := Poll();
      if msg.None? {
        return Failure(NoSuchElementException);
      }
      r := Success(msg.value);
    }

    /** peek(): the element poll would take, without removing it; null when empty. */
    method Peek() returns (msg: Option<T>)
      requires Valid()
      ensures msg == Head(Buckets())
    {
      msg := None;
      for i := 0 to Count
        invariant msg.None?
        invariant forall j :: 0 <= j < i ==> queues[j] == []
      {
        var k := Values()[i].Ordinal();
        // ArrayDeque.peek: the head, or null when empty
        if queues[k] != [] {
          msg := Some(queues[k][0]);
        }
        if msg.Some? {
          assert FirstNonEmpty(Buckets()) == k;
          break;
        }
      }
    }

    /** element(): peek, throwing when the queue is empty. */
    method Element() returns (r: Result<T>)
      requires Valid()
      ensures Flatten(Buckets()) == [] ==> r == Failure(NoSuchElementException)
      ensures Flatten(Buckets()) != [] ==> r == Success(Flatten(Buckets())[0])
    {
      HeadIsFirst(Buckets());
      FlattenLength(Buckets());
      var msg := Peek();
      if msg.None? {
        return Failure(NoSuchElementException);
      }
      r := Success(msg.value);
    }

    /** size(priority): the number of elements waiting at that priority. */
    method SizeOf(priority: Priority) returns (n: int)
      requires Valid()
      ensures n == |Buckets()[priority.Ordinal()]|
    {
      n := |queues[priority.Ordinal()]|;
    }

    /** size(): the sum of the sizes of all priorities. */
    method Size() returns (n: int)
      requires Valid()
      ensures n == Total(Buckets())
      ensures n == |Flatten(Buckets())|
    {
      n := 0;
      for i := 0 to Count
        invariant n == Total(Buckets()[..i])
      {
        var s := SizeOf(Values()[i]);
        TotalAppend(Buckets()[..i], [Buckets()[i]]);
        assert Buckets()[..i + 1] == Buckets()[..i] + [Buckets()[i]];
        n := n + s;
      }
      assert Buckets()[..Count] == Buckets();
      FlattenLength(Buckets());
    }

    /** iterator(): a cursor over the queue's elements in service order. */
    method Iterator() returns (it: PriorityQueueIterator<T>)
      requires Valid()
      ensures fresh(it) && it.Valid()
      ensures it.Remaining() == Flatten(Buckets())
    {
      it := new PriorityQueueIterator(queues[..]);
    }
  }

  /**
   * The iterator: the index of the current sub-queue and an iterator over
   * that sub-queue, kept here as the elements it has still to yield. It runs
   * over the sub-queues as they were when it was created.
   */
  class PriorityQueueIterator<T> {
    /** The sub-queues being iterated over. */
    const queues: seq<seq<T>>
    /** The current queue index. */
    var queueIndex: nat
    /** What the iterator of the current sub-queue has still to yield. */
    var queueItr: seq<T>

    ghost predicate Valid()
      reads this
    {
      && |queues| == Count
      && queueIndex <= Count
      && (queueIndex == Count ==> queueItr == [])
    }

    /** The elements still to come, in order. */
    ghost function Remaining(): seq<T>
      reads this
      requires Valid()
    {
      if queueIndex < |queues| then queueItr + Flatten(queues[queueIndex + 1..]) else []
    }

    constructor (qs: seq<seq<T>>)
      requires |qs| == Count
      ensures Valid() && queues == qs
      ensures Remaining() == Flatten(qs)
    {
      queues := qs;
      queueIndex := 0;
      queueItr := qs[0];
      new;
      assert qs[0..] == qs;
      assert qs[1..] == qs[0..][1..];
    }

    /** hasNext(): move past exhausted sub-queues; true when an element remains. */
    method HasNext() returns (b: bool)
      requires Valid()
      modifies this
      ensures Valid() && Remaining() == old(Remaining())
      ensures b == (Remaining() != [])
      ensures b ==> queueIndex < Count && queueItr != []
      ensures !b ==> queueIndex == Count
    {
      while queueIndex < |queues|
        invariant Valid() && Remaining() == old(Remaining())
        decreases |queues| - queueIndex
      {
        if queueItr != [] {
          return true;
        }
        queueIndex := queueIndex + 1;
        if queueIndex < |queues| {
          queueItr := queues[queueIndex];
          FlattenAt(queues, queueIndex);
        }
      }
      return false;
    }

    /** next(): the next element, or null once every sub-queue is exhausted. */
    method Next() returns (r: Option<T>)
      requires Valid()
      modifies this
      ensures Valid()
      ensures old(Remaining()) == [] ==> r == None && Remaining() == []
      ensures old(Remaining()) != [] ==> r == Some(old(Remaining())[0]) && Remaining() == old(Remaining())[1..]
    {
      var more := HasNext();
      if more {
        r := Some(queueItr[0]);
        queueItr := queueItr[1..];
      } else {
        r := None;
      }
    }
  }

  /** A for-each loop over the queue: collects what its iterator yields. */
  method Collect<T>(pq: PriorityQueue<T>) returns (s: seq<T>)
    requires pq.Valid()
    ensures s == Flatten(pq.Buckets())
    ensures |s| == Total(pq.Buckets())
  {
    FlattenLength(pq.Buckets());
    var it := pq.Iterator();
    s := ForEach(it);
  }

  /** Runs an iterator to the end, as a for-each loop does: hasNext, then next. */
  method ForEach<T>(it: PriorityQueueIterator<T>) returns (s: seq<T>)
    requires it.Valid()
    modifies it
    ensures s == old(it.Remaining())
  {
    var more := it.HasNext();
    s := [];
    while more
      invariant it.Valid()
      invariant s + it.Remaining() == old(it.Remaining())
      invariant more == (it.Remaining() != [])
      decreases |it.Remaining()|
    {
      var x := it.Next();
      s := s + [x.value];
      more := it.HasNext();
    }
  }

  /** Polls until the queue reports empty, collecting what comes out. */
  method PollAll<T>(pq: PriorityQueue<T>) returns (s: seq<T>)
    requires pq.Valid()
    modifies pq.queues
    ensures s == Drain(old(pq.Buckets()))
    ensures s == Flatten(old(pq.Buckets()))
    ensures Total(pq.Buckets()) == 0
  {
    ghost var start := pq.Buckets();
    DrainIsFlatten(start);
    s := [];
    var msg := pq.Poll();
    while msg.Some?
      invariant pq.Valid()
      invariant msg.Some? ==> s + [msg.value] + Drain(pq.Buckets()) == Drain(start)
      invariant msg.None? ==> s == Drain(start) && Total(pq.Buckets()) == 0
      decreases Total(pq.Buckets()) + (if msg.Some? then 1 else 0)
    {
      s := s + [msg.value];
      msg := pq.Poll();
    }
  }
}
