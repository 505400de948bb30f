/**
 * The unit-test scenarios of the queue, as methods whose postconditions
 * state the outcomes the tests assert. Messages are modelled by their
 * strings.
 */
module Scenarios {
  import opened BucketSpec
  import opened PriorityQueues

  /** The label the tests give message i of priority p: "<priority name>.<i>". */
  function Label(p: Priority, i: nat): string
    requires i < 10
  {
    p.Name() + "." + [('0' as int + i) as char]
  }

  /** The three labels the tests enqueue at priority p, in insertion order. */
  function Labels(p: Priority): seq<string>
  {
    [Label(p, 0), Label(p, 1), Label(p, 2)]
  }

  /** The order the tests expect back: level-major, insertion order within a level. */
  function Expected(): seq<string>
  {
    Labels(Highest) + Labels(High) + Labels(Low) + Labels(Lowest)
  }

  /** A fresh queue reports size 0, add(null) throws, and so do remove and element. */
  method EmptyQueueMustTier()
    returns (size: int, added: Result<bool>, sizeAfterAdd: int,
             removed: Result<string>, element: Result<string>)
    ensures size == 0 && sizeAfterAdd == 0
    ensures added == Failure(NullPointerException)
    ensures removed == Failure(NoSuchElementException)
    ensures element == Failure(NoSuchElementException)
  {
    var pq := new PriorityQueue<string>();
    HeadIsFirst(pq.Buckets());
    size := pq.Size();
    added := pq.Add(None);
    sizeAfterAdd := pq.Size();
    removed := pq.Remove();
    element := pq.Element();
  }

  /** A fresh queue reports size 0, and poll and peek give null. */
  method EmptyQueue() returns (size: int, polled: Option<string>, peeked: Option<string>)
    ensures size == 0
    ensures polled == None && peeked == None
  {
    var pq := new PriorityQueue<string>();
    HeadIsFirst(pq.Buckets());
    size := pq.Size();
    polled := pq.Poll();
    peeked := pq.Peek();
  }

  /**
   * One message offered at high: size 1 before and after peek, peek and
   * poll both give it, then the queue is empty, poll gives null and the
   * size stays 0.
   */
  method SingleMessage()
    returns (size: int, peeked: Option<string>, sizeAfterPeek: int, sizeHigh: int,
             polled: Option<string>, sizeAfterPoll: int, polledAgain: Option<string>,
             sizeAtEnd: int)
    ensures size == 1 && sizeAfterPeek == 1 && sizeHigh == 1
    ensures peeked == Some("0.0") && polled == Some("0.0")
    ensures sizeAfterPoll == 0 && polledAgain == None && sizeAtEnd == 0
  {
    var pq := new PriorityQueue<string>();
    var ok := pq.OfferAt("0.0", High);
    size := pq.Size();
    peeked := pq.Peek();
    sizeAfterPeek := pq.Size();
    sizeHigh := pq.SizeOf(High);
    polled := pq.Poll();
    sizeAfterPoll := pq.Size();
    polledAgain := pq.Poll();
    sizeAtEnd := pq.Size();
  }

  /**
   * The same single message through the throwing forms add, element and
   * remove; the second remove throws and the size stays 0.
   */
  method SingleMessageMustTier()
    returns (size: int, element: Result<string>, sizeAfterElement: int, sizeHigh: int,
             removed: Result<string>, sizeAfterRemove: int, removedAgain: Result<string>,
             sizeAtEnd: int)
    ensures size == 1 && sizeAfterElement == 1 && sizeHigh == 1
    ensures element == Success("0.0") && removed == Success("0.0")
    ensures sizeAfterRemove == 0 && removedAgain == Failure(NoSuchElementException)
    ensures sizeAtEnd == 0
  {
    var pq := new PriorityQueue<string>();
    var ok := pq.AddAt(Some("0.0"), High);
    size := pq.Size();
    HeadIsFirst(pq.Buckets());
    element := pq.Element();
    sizeAfterElement := pq.Size();
    sizeHigh := pq.SizeOf(High);
    removed := pq.Remove();
    sizeAfterRemove := pq.Size();
    HeadIsFirst(pq.Buckets());
    removedAgain := pq.Remove();
    sizeAtEnd := pq.Size();
  }

  /**
   * Three messages per priority, inserted level by level as the tests do:
   * through add when mustTier holds, through offer otherwise.
   */
  method FillThreePerLevel(mustTier: bool) returns (pq: PriorityQueue<string>)
    ensures fresh(pq.queues) && pq.Valid()
    ensures pq.Buckets() == [Labels(Highest), Labels(High), Labels(Low), Labels(Lowest)]
  {
    pq := new PriorityQueue<string>();
    for pi := 0 to Count
      invariant pq.Valid() && fresh(pq.queues)
      invariant forall j :: 0 <= j < pi ==> pq.Buckets()[j] == Labels(Values()[j])
      invariant forall j :: pi <= j < Count ==> pq.Buckets()[j] == []
    {
      FillLevel(pq, Values()[pi], mustTier);
    }
  }

  /** The inner loop of the fill: the three messages of priority p, in order. */
  method FillLevel(pq: PriorityQueue<string>, p: Priority, mustTier: bool)
    requires pq.Valid() && pq.Buckets()[p.Ordinal()] == []
    modifies pq.queues
    ensures pq.Buckets() == old(pq.Buckets())[p.Ordinal() := Labels(p)]
  {
    ghost var start := pq.Buckets();
    var k := p.Ordinal();
    for i := 0 to 3
      invariant pq.Buckets() == start[k := Labels(p)[..i]]
    {
      if mustTier {
        var r := pq.AddAt(Some(Label(p, i)), p);
      } else {
        var ok := pq.OfferAt(Label(p, i), p);
      }
      assert Labels(p)[..i + 1] == Labels(p)[..i] + [Label(p, i)];
    }
    assert Labels(p)[..3] == Labels(p);
  }

  /** The service order of the filled queue, spelled out level by level. */
  lemma FilledOrder(qs: seq<seq<string>>)
    requires qs == [Labels(Highest), Labels(High), Labels(Low), Labels(Lowest)]
    ensures Flatten(qs) == Expected()
    ensures Total(qs) == 12
  {
    FlattenSplit(qs, 0);
    FlattenSplit(qs, 1);
    FlattenSplit(qs, 2);
    FlattenSplit(qs, 3);
    assert qs[..0] == [];
    assert qs[4..] == [];
    FlattenLength(qs);
  }

  /**
   * Twelve messages offered: size 12 and 3 per level; at every step peek
   * gives what poll then takes, and they come out level-major, FIFO within
   * a level; the queue ends empty.
   */
  method TwelveMessagesPeekPoll()
    returns (size: int, perLevel: seq<int>, peeked: seq<string>, order: seq<string>, finalSize: int)
    ensures size == 12 && perLevel == [3, 3, 3, 3]
    ensures peeked == order
    ensures order == Expected()
    ensures finalSize == 0
  {
    var pq := FillThreePerLevel(false);
    size, perLevel := SizesOfFilled(pq);
    peeked, order := PeekThenPoll(pq, 12);
    finalSize := pq.Size();
  }

  /**
   * Twelve messages added: size 12 and 3 per level; at every step element
   * gives what remove then takes, and they come out level-major, FIFO
   * within a level; the queue ends empty.
   */
  method TwelveMessagesElementRemove()
    returns (size: int, perLevel: seq<int>, elements: seq<string>, order: seq<string>, finalSize: int)
    ensures size == 12 && perLevel == [3, 3, 3, 3]
    ensures elements == order
    ensures order == Expected()
    ensures finalSize == 0
  {
    var pq := FillThreePerLevel(true);
    size, perLevel := SizesOfFilled(pq);
    elements, order := ElementThenRemove(pq, 12);
    finalSize := pq.Size();
  }

  /** The tests' draining loop: count rounds of peek followed by poll. */
  method PeekThenPoll<T>(pq: PriorityQueue<T>, count: nat) returns (peeked: seq<T>, polled: seq<T>)
    requires pq.Valid() && Total(pq.Buckets()) == count
    modifies pq.queues
    ensures peeked == polled == Flatten(old(pq.Buckets()))
    ensures Total(pq.Buckets()) == 0
  {
    ghost var all := Flatten(pq.Buckets());
    FlattenLength(pq.Buckets());
    peeked, polled := [], [];
    for n := 0 to count
      invariant peeked == polled == all[..n]
      invariant Flatten(pq.Buckets()) == all[n..]
    {
      ghost var before := pq.Buckets();
      HeadIsFirst(before);
      RestIsTail(before);
      var temp := pq.Peek();
      var msg := pq.Poll();
      peeked := peeked + [temp.value];
      polled := polled + [msg.value];
      assert all[n + 1..] == all[n..][1..];
      assert all[..n + 1] == all[..n] + [all[n]];
    }
    FlattenLength(pq.Buckets());
  }

  /** The tests' draining loop in the throwing forms: count rounds of element followed by remove. */
  method ElementThenRemove<T>(pq: PriorityQueue<T>, count: nat) returns (elements: seq<T>, removed: seq<T>)
    requires pq.Valid() && Total(pq.Buckets()) == count
    modifies pq.queues
    ensures elements == removed == Flatten(old(pq.Buckets()))
    ensures Total(pq.Buckets()) == 0
  {
    ghost var all := Flatten(pq.Buckets());
    FlattenLength(pq.Buckets());
    elements, removed := [], [];
    for n := 0 to count
      invariant elements == removed == all[..n]
      invariant Flatten(pq.Buckets()) == all[n..]
    {
      ghost var before := pq.Buckets();
      HeadIsFirst(before);
      RestIsTail(before);
      var temp := pq.Element();
      var msg := pq.Remove();
      elements := elements + [temp.value];
      removed := removed + [msg.value];
      assert all[n + 1..] == all[n..][1..];
      assert all[..n + 1] == all[..n] + [all[n]];
    }
    FlattenLength(pq.Buckets());
  }

  /** size() and size(p) of the filled queue, which they leave unchanged. */
  method SizesOfFilled(pq: PriorityQueue<string>) returns (size: int, perLevel: seq<int>)
    requires pq.Valid()
    requires pq.Buckets() == [Labels(Highest), Labels(High), Labels(Low), Labels(Lowest)]
    ensures size == 12 && perLevel == [3, 3, 3, 3]
    ensures Flatten(pq.Buckets()) == Expected() && Total(pq.Buckets()) == 12
  {
    FilledOrder(pq.Buckets());
    size := pq.Size();
    perLevel := [];
    for pi := 0 to Count
      invariant |perLevel| == pi
      invariant forall j :: 0 <= j < pi ==> perLevel[j] == 3
    {
      var n := pq.SizeOf(Values()[pi]);
      perLevel := perLevel + [n];
    }
  }

  /** Twelve messages: the iterator yields them level-major, FIFO within a level. */
  method TwelveMessagesIterate() returns (order: seq<string>)
    ensures order == Expected()
  {
    var pq := FillThreePerLevel(false);
    FilledOrder(pq.Buckets());
    order := Collect(pq);
  }
}
