/**
 * The abstract view of a bucketed priority queue: one FIFO sub-queue per
 * priority level, held as a sequence of sequences in rank order (index 0 is
 * the most urgent level). The class in priority_queue.dfy is proved against
 * the functions of this module.
 */
module BucketSpec {

  /** Java's nullable reference, as returned by poll, peek and next. */
  datatype Option<T> = None | Some(value: T)

  /** Number of priority levels, the length of the queue's array of sub-queues. */
  const Count: nat := 4

  /** The priority levels in declaration order: highest is served first. */
  datatype Priority = Highest | High | Low | Lowest {

    /** The enum ordinal, which indexes the array of sub-queues. */
    function Ordinal(): (n: nat)
      ensures n < Count
    {
      match this
      case Highest => 0
      case High => 1
      case Low => 2
      case Lowest => 3
    }

    /** The enum constant's name, as Java's toString gives it. */
    function Name(): string
    {
      match this
      case Highest => "highest"
      case High => "high"
      case Low => "low"
      case Lowest => "lowest"
    }
  }

  /** Priority.values(): every level, listed by ordinal. */
  function Values(): (ps: seq<Priority>)
    ensures |ps| == Count
    ensures forall i :: 0 <= i < Count ==> ps[i].Ordinal() == i
  {
    [Highest, High, Low, Lowest]
  }

  /** The number of elements held: the sum of the sub-queue lengths. */
  function Total<T>(qs: seq<seq<T>>): nat
  {
    if qs == [] then 0 else |qs[0]| + Total(qs[1..])
  }

  /** Service order: the sub-queues concatenated, most urgent level first. */
  function Flatten<T>(qs: seq<seq<T>>): seq<T>
  {
    if qs == [] then [] else qs[0] + Flatten(qs[1..])
  }

  /** Index of the most urgent non-empty sub-queue, or |qs| when all are empty. */
  function FirstNonEmpty<T>(qs: seq<seq<T>>): (k: nat)
    ensures k <= |qs|
    ensures forall j :: 0 <= j < k ==> qs[j] == []
    ensures k < |qs| ==> qs[k] != []
  {
    if qs == [] then 0
    else if qs[0] != [] then 0
    else 1 + FirstNonEmpty(qs[1..])
  }

  /** The element poll and peek hand out: the head of the first non-empty sub-queue. */
  function Head<T>(qs: seq<seq<T>>): Option<T>
  {
    var k := FirstNonEmpty(qs);
    if k < |qs| then Some(qs[k][0]) else None
  }

  /** The sub-queues after poll: the head of the first non-empty one is gone. */
  function Rest<T>(qs: seq<seq<T>>): seq<seq<T>>
  {
    var k := FirstNonEmpty(qs);
    if k < |qs| then qs[k := qs[k][1..]] else qs
  }

  /** The sub-queues after offering x at level k. */
  function Enqueue<T>(qs: seq<seq<T>>, k: nat, x: T): seq<seq<T>>
    requires k < |qs|
  {
    qs[k := qs[k] + [x]]
  }

  /** The elements handed out by polling until the queue reports empty. */
  function Drain<T>(qs: seq<seq<T>>): seq<T>
    decreases Total(qs)
  {
    match Head(qs)
    case None => []
    case Some(x) =>
      RestIsTail(qs);
      FlattenLength(qs);
      FlattenLength(Rest(qs));
      [x] + Drain(Rest(qs))
  }

  /** The size is the length of the service order. */
  lemma {:induction false} FlattenLength<T>(qs: seq<seq<T>>)
    ensures |Flatten(qs)| == Total(qs)
  {
    if qs != [] {
      FlattenLength(qs[1..]);
    }
  }

  /** Flattening distributes over concatenation of the bucket sequence. */
  lemma {:induction false} FlattenAppend<T>(a: seq<seq<T>>, b: seq<seq<T>>)
    ensures Flatten(a + b) == Flatten(a) + Flatten(b)
  {
    if a == [] {
      assert a + b == b;
    } else {
      assert (a + b)[1..] == a[1..] + b;
      FlattenAppend(a[1..], b);
    }
  }

  /** The size of a concatenation of bucket sequences is the sum of their sizes. */
  lemma TotalAppend<T>(a: seq<seq<T>>, b: seq<seq<T>>)
    ensures Total(a + b) == Total(a) + Total(b)
  {
    FlattenAppend(a, b);
    FlattenLength(a + b);
    FlattenLength(a);
    FlattenLength(b);
  }

  /** A queue is empty exactly when every sub-queue is. */
  lemma {:induction false} EmptyIffAllEmpty<T>(qs: seq<seq<T>>)
    ensures Flatten(qs) == [] <==> forall j :: 0 <= j < |qs| ==> qs[j] == []
  {
    if qs != [] {
      EmptyIffAllEmpty(qs[1..]);
      assert forall j :: 1 <= j < |qs| ==> qs[j] == qs[1..][j - 1];
    }
  }

  /** Skipping the empty levels in front of level k leaves the service order unchanged. */
  lemma FlattenFrom<T>(qs: seq<seq<T>>, k: nat)
    requires k < |qs|
    requires forall j :: 0 <= j < k ==> qs[j] == []
    ensures Flatten(qs) == qs[k] + Flatten(qs[k + 1..])
  {
    assert qs == qs[..k] + qs[k..];
    FlattenAppend(qs[..k], qs[k..]);
    EmptyIffAllEmpty(qs[..k]);
    assert qs[k..][1..] == qs[k + 1..];
  }

  /** poll and peek answer the first element of the service order, or null when there is none. */
  lemma HeadIsFirst<T>(qs: seq<seq<T>>)
    ensures Head(qs).None? <==> Flatten(qs) == []
    ensures Head(qs).Some? ==> Flatten(qs) != [] && Head(qs).value == Flatten(qs)[0]
  {
    var k := FirstNonEmpty(qs);
    if k < |qs| {
      FlattenFrom(qs, k);
    } else {
      EmptyIffAllEmpty(qs);
    }
  }

  /**
   * poll removes exactly the first element of the service order, and the
   * size drops by one; on an empty queue nothing changes.
   */
  lemma RestIsTail<T>(qs: seq<seq<T>>)
    ensures Flatten(qs) == [] ==> Rest(qs) == qs
    ensures Flatten(qs) != [] ==> Flatten(Rest(qs)) == Flatten(qs)[1..]
    ensures Flatten(qs) != [] ==> Total(Rest(qs)) == Total(qs) - 1
  {
    var k := FirstNonEmpty(qs);
    HeadIsFirst(qs);
    if k < |qs| {
      var front, back := Flatten(qs[..k]), Flatten(qs[k + 1..]);
      EmptyIffAllEmpty(qs[..k]);
      assert front == [];
      FlattenSplit(qs, k);
      FlattenUpdate(qs, k, qs[k][1..]);
      assert (qs[k] + back)[1..] == qs[k][1..] + back;
      FlattenLength(qs);
      FlattenLength(Rest(qs));
    }
  }

  /** Every sub-queue except the one polled from is left as it was. */
  lemma RestChangesOneBucket<T>(qs: seq<seq<T>>, j: nat)
    requires j < |qs|
    requires Head(qs).Some?
    ensures |Rest(qs)| == |qs|
    ensures j == FirstNonEmpty(qs) ==> Rest(qs)[j] == qs[j][1..] && Head(qs).value == qs[j][0]
    ensures j != FirstNonEmpty(qs) ==> Rest(qs)[j] == qs[j]
  {
  }

  /**
   * Offering x at level k places x after everything already waiting at
   * levels up to k and before everything at later levels.
   */
  lemma EnqueueFlatten<T>(qs: seq<seq<T>>, k: nat, x: T)
    requires k < |qs|
    ensures Flatten(Enqueue(qs, k, x)) == Flatten(qs[..k + 1]) + [x] + Flatten(qs[k + 1..])
  {
    FlattenSplit(qs, k);
    FlattenUpdate(qs, k, qs[k] + [x]);
  }

  /** Offering adds exactly one element to the size. */
  lemma EnqueueTotal<T>(qs: seq<seq<T>>, k: nat, x: T)
    requires k < |qs|
    ensures Total(Enqueue(qs, k, x)) == Total(qs) + 1
  {
    FlattenSplit(qs, k);
    FlattenUpdate(qs, k, qs[k] + [x]);
    FlattenLength(qs);
    FlattenLength(Enqueue(qs, k, x));
  }

  /** Replacing the sub-queue at level k replaces its stretch of the service order. */
  lemma FlattenUpdate<T>(qs: seq<seq<T>>, k: nat, s: seq<T>)
    requires k < |qs|
    ensures Flatten(qs[k := s]) == Flatten(qs[..k]) + s + Flatten(qs[k + 1..])
  {
    UpdateAround(qs, k, s);
    FlattenSplit(qs[k := s], k);
  }

  /** The service order around level k: the levels before it, its own elements, the levels after it. */
  lemma FlattenSplit<T>(qs: seq<seq<T>>, k: nat)
    requires k < |qs|
    ensures Flatten(qs[..k + 1]) == Flatten(qs[..k]) + qs[k]
    ensures Flatten(qs) == Flatten(qs[..k]) + qs[k] + Flatten(qs[k + 1..])
  {
    SliceAround(qs, k);
    FlattenSnoc(qs[..k], qs[k]);
    FlattenAppend(qs[..k] + [qs[k]], qs[k + 1..]);
  }

  /** The service order from level i on: level i's elements, then those of the later levels. */
  lemma FlattenAt<T>(qs: seq<seq<T>>, i: nat)
    requires i < |qs|
    ensures Flatten(qs[i..]) == qs[i] + Flatten(qs[i + 1..])
  {
    assert qs[i..][1..] == qs[i + 1..];
  }

  /** Appending one sub-queue after the others appends its elements to the service order. */
  lemma FlattenSnoc<T>(qs: seq<seq<T>>, s: seq<T>)
    ensures Flatten(qs + [s]) == Flatten(qs) + s
  {
    FlattenAppend(qs, [s]);
    assert [s][1..] == [];
  }

  lemma SliceAround<T>(qs: seq<T>, k: nat)
    requires k < |qs|
    ensures qs[..k + 1] == qs[..k] + [qs[k]]
    ensures qs == qs[..k] + [qs[k]] + qs[k + 1..]
  {
    assert qs == qs[..k + 1] + qs[k + 1..];
  }

  lemma UpdateAround<T>(qs: seq<T>, k: nat, x: T)
    requires k < |qs|
    ensures qs[k := x][..k] == qs[..k]
    ensures qs[k := x][k + 1..] == qs[k + 1..]
  {
  }

  /** Polling until empty yields the whole service order: level-major, FIFO within a level. */
  lemma {:induction false} DrainIsFlatten<T>(qs: seq<seq<T>>)
    ensures Drain(qs) == Flatten(qs)
    decreases Total(qs)
  {
    HeadIsFirst(qs);
    match Head(qs)
    case None =>
    case Some(x) =>
      RestIsTail(qs);
      FlattenLength(qs);
      DrainIsFlatten(Rest(qs));
  }
}
