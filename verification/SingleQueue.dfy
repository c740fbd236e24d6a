/**
  The single-producer single-consumer ring of singleQueue.h and the queue of
  extendableSingleQueue.h that overflows into an unbounded queue: first each call by itself,
  then one producer and one consumer step by step.
 */
module SingleQueue {
  import opened Modular
  import opened Words

  // ------------------------------------------------------------------ the ring

  /** The position after i in a ring of n slots. */
  function Next(i: nat, n: nat): (j: nat)
    requires i < n
    ensures j < n
  {
    (i + 1) % n
  }

  /** How many slots lie from front to rear. */
  function Used(front: nat, rear: nat, n: nat): (k: nat)
    requires front < n && rear < n
    ensures k < n
  {
    if front <= rear then rear - front else n + rear - front
  }

  /** The slot i places behind the front. */
  function Slot(front: nat, i: nat, n: nat): (j: nat)
    requires front < n && i < n
    ensures j < n
  {
    if front + i < n then front + i else front + i - n
  }

  /** The elements from front to rear, in order. */
  function Ring<T>(elements: seq<T>, front: nat, rear: nat): (r: seq<T>)
    requires front < |elements| && rear < |elements|
    ensures |r| == Used(front, rear, |elements|)
  {
    seq(Used(front, rear, |elements|),
      i requires 0 <= i < Used(front, rear, |elements|) => elements[Slot(front, i, |elements|)])
  }

  lemma NextIs(i: nat, n: nat)
    requires i < n
    ensures Next(i, n) == if i + 1 < n then i + 1 else 0
  {
    if i + 1 == n { Remainder(1, 0, n); } else { Remainder(0, i + 1, n); }
  }

  /** The test for a full ring says that all slots but one are used. */
  lemma FullIsUsed(front: nat, rear: nat, n: nat)
    requires front < n && rear < n
    ensures Next(rear, n) == front <==> Used(front, rear, n) == n - 1
  {
    NextIs(rear, n);
  }

  /** Writing at the rear leaves every unread element alone. */
  lemma WriteKeeps<T>(elements: seq<T>, front: nat, rear: nat, v: T)
    requires front < |elements| && rear < |elements|
    ensures Ring(elements[rear := v], front, rear) == Ring(elements, front, rear)
  {
  }

  /** Moving the rear of a ring with room adds the element that was written there. */
  lemma AdvanceAdds<T>(elements: seq<T>, front: nat, rear: nat)
    requires front < |elements| && rear < |elements| && Next(rear, |elements|) != front
    ensures Ring(elements, front, Next(rear, |elements|)) == Ring(elements, front, rear) + [elements[rear]]
  {
    NextIs(rear, |elements|);
  }

  /** Moving the front of a ring that is not empty removes the first element. */
  lemma PopRemoves<T>(elements: seq<T>, front: nat, rear: nat)
    requires front < |elements| && rear < |elements| && front != rear
    ensures Ring(elements, front, rear) == [elements[front]] + Ring(elements, Next(front, |elements|), rear)
  {
    NextIs(front, |elements|);
  }

  /** count: the differences wrap around in 32 bits. */
  function Count(front: nat, rear: nat, n: nat): nat {
    if front <= rear then rear - front else (n + (rear - front) % WORD) % WORD
  }

  lemma CountIsUsed(front: nat, rear: nat, n: nat)
    requires front < n && rear < n < WORD
    ensures Count(front, rear, n) == Used(front, rear, n)
  {
    if front > rear {
      Remainder(-1, WORD + rear - front, WORD);
      Remainder(1, n + rear - front, WORD);
    }
  }

  class Queue<T(0)> {
    const elements: array<T>
    var frontPos: nat
    var rearPos: nat

    ghost predicate Valid()
      reads this
    {
      frontPos < elements.Length && rearPos < elements.Length < WORD
    }

    ghost function Contents(): seq<T>
      reads this, elements
      requires Valid()
    {
      Ring(elements[..], frontPos, rearPos)
    }

    constructor (capacity: nat)
      requires capacity + 1 < WORD
      ensures Valid() && Contents() == [] && elements.Length == capacity + 1 && fresh(elements)
    {
      elements := new T[capacity + 1];
      frontPos := 0;
      rearPos := 0;
    }

    method Push(value: T)
      requires Valid() && |Contents()| < elements.Length - 1
      modifies this`rearPos, elements
      ensures Valid() && Contents() == old(Contents()) + [value]
    {
      ghost var before := elements[..];
      WriteKeeps(before, frontPos, rearPos, value);
      FullIsUsed(frontPos, rearPos, elements.Length);
      elements[rearPos] := value;
      assert elements[..] == before[rearPos := value];
      AdvanceAdds(elements[..], frontPos, rearPos);
      rearPos := (rearPos + 1) % elements.Length;
    }

    method Pop()
      requires Valid() && Contents() != []
      modifies this`frontPos
      ensures Valid() && Contents() == old(Contents())[1..]
    {
      PopRemoves(elements[..], frontPos, rearPos);
      frontPos := (frontPos + 1) % elements.Length;
    }

    method Empty() returns (r: bool)
      requires Valid()
      ensures r <==> Contents() == []
    {
      r := frontPos == rearPos;
    }

    method Full() returns (r: bool)
      requires Valid()
      ensures r <==> |Contents()| == elements.Length - 1
    {
      FullIsUsed(frontPos, rearPos, elements.Length);
      r := (rearPos + 1) % elements.Length == frontPos;
    }

    method CountElements() returns (r: nat)
      requires Valid()
      ensures r == |Contents()|
    {
      CountIsUsed(frontPos, rearPos, elements.Length);
      r := Count(frontPos, rearPos, elements.Length);
    }

    method Front() returns (v: T)
      requires Valid() && Contents() != []
      ensures v == Contents()[0]
    {
      PopRemoves(elements[..], frontPos, rearPos);
      v := elements[frontPos];
    }
  }

  // ------------------------------------------------------------------ the extendable queue

  class ExtendableQueue<T(0)> {
    const ring: Queue<T>
    var extend: seq<T>

    ghost predicate Valid()
      reads this, ring
    {
      ring.Valid()
    }

    /** The ring, followed by the overflow. */
    ghost function Contents(): seq<T>
      reads this, ring, ring.elements
      requires Valid()
    {
      ring.Contents() + extend
    }

    constructor (capacity: nat)
      requires capacity + 1 < WORD
      ensures Valid() && Contents() == [] && fresh(ring) && fresh(ring.elements)
    {
      ring := new Queue(capacity);
      extend := [];
    }

    method Push(value: T)
      requires Valid()
      modifies this, ring, ring.elements
      ensures Valid() && Contents() == old(Contents()) + [value]
    {
      var full := ring.Full();
      if full {
        extend := extend + [value];
      } else if extend == [] {
        ring.Push(value);
      } else {
        extend := extend + [value];
        Refresh();
      }
    }

    /** refresh: elements move from the overflow into the ring while there is room. */
    method Refresh()
      requires Valid()
      modifies this, ring, ring.elements
      ensures Valid() && Contents() == old(Contents())
      ensures extend == [] || |ring.Contents()| == ring.elements.Length - 1
    {
      var full := ring.Full();
      while extend != [] && !full
        invariant Valid() && Contents() == old(Contents()) && full == (|ring.Contents()| == ring.elements.Length - 1)
        decreases |extend|
      {
        ghost var r, e := ring.Contents(), extend;
        ring.Push(extend[0]);
        extend := extend[1..];
        assert r + e == (r + [e[0]]) + e[1..];
        full := ring.Full();
      }
    }

    method Pop()
      requires Valid() && ring.Contents() != []
      modifies ring
      ensures Valid() && Contents() == old(Contents())[1..]
    {
      ring.Pop();
    }

    /** count: the total wraps around in 32 bits. */
    method CountElements() returns (r: nat)
      requires Valid()
      ensures r == |Contents()| % WORD
    {
      var c := ring.CountElements();
      r := (c + |extend|) % WORD;
    }
  }

  // ------------------------------------------------------------------ one producer, one consumer

  /** Where the producer stands in push or refresh. */
  datatype Producer<T> =
    | Outside
    | Starting(value: T)     // about to ask whether the ring is full
    | Writing(value: T)      // about to write the slot at the rear
    | Advancing(value: T)    // about to move the rear
    | Checking               // refresh: about to ask whether there is more to move and room for it
    | Copying                // about to copy the first overflow element into the slot at the rear
    | CopyAdvancing          // about to move the rear over it
    | CopyPopping            // about to remove it from the overflow

  /** Where the consumer stands: it asks for elements, looks at the first, removes it. */
  datatype Consumer<T> = Away | Ready | Holding(value: T)

  /** The shared memory, both threads, and what has been pushed and popped so far. */
  datatype State<T> = State(
    elements: seq<T>, front: nat, rear: nat, extend: seq<T>,
    producer: Producer<T>, consumer: Consumer<T>,
    pushed: seq<T>, popped: seq<T>)

  datatype Action<T> = BeginPush(value: T) | BeginRefresh | Produce | Consume

  predicate Formed<T>(s: State<T>) {
    s.front < |s.elements| && s.rear < |s.elements| < WORD
  }

  predicate IsFull<T>(s: State<T>)
    requires Formed(s)
  {
    Next(s.rear, |s.elements|) == s.front
  }

  /** One step of the producer: one access to shared memory. */
  function ProducerStep<T>(s: State<T>): State<T>
    requires Formed(s) && s.producer != Outside && (s.producer.Copying? || s.producer.CopyPopping? ==> s.extend != [])
  {
    match s.producer
    case Starting(v) =>
      if IsFull(s) then s.(extend := s.extend + [v], pushed := s.pushed + [v], producer := Outside)
      else if s.extend == [] then s.(producer := Writing(v))
      else s.(extend := s.extend + [v], pushed := s.pushed + [v], producer := Checking)
    case Writing(v) => s.(elements := s.elements[s.rear := v], producer := Advancing(v))
    case Advancing(v) => s.(rear := Next(s.rear, |s.elements|), pushed := s.pushed + [v], producer := Outside)
    case Checking => if s.extend != [] && !IsFull(s) then s.(producer := Copying) else s.(producer := Outside)
    case Copying => s.(elements := s.elements[s.rear := s.extend[0]], producer := CopyAdvancing)
    case CopyAdvancing => s.(rear := Next(s.rear, |s.elements|), producer := CopyPopping)
    case CopyPopping => s.(extend := s.extend[1..], producer := Checking)
  }

  function ConsumerStep<T>(s: State<T>): State<T>
    requires Formed(s)
  {
    match s.consumer
    case Away => if s.front == s.rear then s else s.(consumer := Ready)
    case Ready => s.(consumer := Holding(s.elements[s.front]))
    case Holding(v) => s.(front := Next(s.front, |s.elements|), popped := s.popped + [v], consumer := Away)
  }

  predicate Enabled<T(==)>(s: State<T>, a: Action<T>)
    requires Formed(s)
  {
    match a
    case BeginPush(_) => s.producer == Outside
    case BeginRefresh => s.producer == Outside
    case Produce => s.producer != Outside && (s.producer.Copying? || s.producer.CopyPopping? ==> s.extend != [])
    case Consume => true
  }

  function Step<T>(s: State<T>, a: Action<T>): State<T>
    requires Formed(s) && Enabled(s, a)
  {
    match a
    case BeginPush(v) => s.(producer := Starting(v))
    case BeginRefresh => s.(producer := Checking)
    case Produce => ProducerStep(s)
    case Consume => ConsumerStep(s)
  }

  // ------------------------------------------------------------------ the invariant

  /** The overflow, without an element that is already in the ring. */
  function Overflow<T>(s: State<T>): seq<T> {
    if s.producer.CopyPopping? && s.extend != [] then s.extend[1..] else s.extend
  }

  /** What is in the queue. */
  function Fifo<T>(s: State<T>): seq<T>
    requires Formed(s)
  {
    Ring(s.elements, s.front, s.rear) + Overflow(s)
  }

  ghost predicate ProducerInv<T>(s: State<T>)
    requires Formed(s)
  {
    match s.producer
    case Writing(_) => !IsFull(s) && s.extend == []
    case Advancing(v) => !IsFull(s) && s.extend == [] && s.elements[s.rear] == v
    case Copying => !IsFull(s) && s.extend != []
    case CopyAdvancing => !IsFull(s) && s.extend != [] && s.elements[s.rear] == s.extend[0]
    case CopyPopping => s.extend != []
    case _ => true
  }

  ghost predicate ConsumerInv<T>(s: State<T>)
    requires Formed(s)
  {
    match s.consumer
    case Away => true
    case Ready => s.front != s.rear
    case Holding(v) => s.front != s.rear && v == s.elements[s.front]
  }

  ghost predicate Inv<T>(s: State<T>) {
    && Formed(s)
    && ProducerInv(s)
    && ConsumerInv(s)
    && s.pushed == s.popped + Fifo(s)
  }

  lemma Regroup<T>(p: seq<T>, r: seq<T>, v: T, e: seq<T>)
    ensures p + (r + (e + [v])) == (p + (r + e)) + [v]
    ensures p + ((r + [v]) + e) == p + (r + ([v] + e))
    ensures p + (([v] + r) + e) == (p + [v]) + (r + e)
  {
  }

  /** A write at the rear changes no unread slot, in particular not the one the consumer is looking at. */
  lemma WriteIsUnseen<T>(s: State<T>, v: T)
    requires Formed(s)
    ensures Ring(s.elements[s.rear := v], s.front, s.rear) == Ring(s.elements, s.front, s.rear)
    ensures s.front != s.rear ==> s.elements[s.rear := v][s.front] == s.elements[s.front]
  {
    WriteKeeps(s.elements, s.front, s.rear, v);
  }

  /** The end of a push into the ring. */
  lemma AdvancingKeeps<T>(s: State<T>)
    requires Inv(s) && s.producer.Advancing?
    ensures Inv(ProducerStep(s))
  {
    var r, v := Ring(s.elements, s.front, s.rear), s.producer.value;
    AdvanceAdds(s.elements, s.front, s.rear);
    NextIs(s.rear, |s.elements|);
    assert s.popped + (r + [v]) == (s.popped + r) + [v];
    assert r + [] == r && (r + [v]) + [] == r + [v];
  }

  /** An element of the overflow joins the ring. */
  lemma CopyAdvancingKeeps<T>(s: State<T>)
    requires Inv(s) && s.producer.CopyAdvancing?
    ensures Inv(ProducerStep(s))
  {
    var r, e := Ring(s.elements, s.front, s.rear), s.extend;
    AdvanceAdds(s.elements, s.front, s.rear);
    NextIs(s.rear, |s.elements|);
    assert r + e == (r + [e[0]]) + e[1..];
  }

  lemma StartingKeeps<T>(s: State<T>)
    requires Inv(s) && s.producer.Starting?
    ensures Inv(ProducerStep(s))
  {
    Regroup(s.popped, Ring(s.elements, s.front, s.rear), s.producer.value, s.extend);
  }

  lemma ProducerKeeps<T>(s: State<T>)
    requires Inv(s) && s.producer != Outside
    ensures Inv(ProducerStep(s))
  {
    match s.producer
    case Starting(_) => StartingKeeps(s);
    case Writing(v) => WriteIsUnseen(s, v);
    case Advancing(_) => AdvancingKeeps(s);
    case Checking =>
    case Copying => WriteIsUnseen(s, s.extend[0]);
    case CopyAdvancing => CopyAdvancingKeeps(s);
    case CopyPopping =>
  }

  lemma ConsumerKeeps<T>(s: State<T>)
    requires Inv(s)
    ensures Inv(ConsumerStep(s))
  {
    if s.consumer.Holding? {
      PopRemoves(s.elements, s.front, s.rear);
      NextIs(s.front, |s.elements|);
      NextIs(s.rear, |s.elements|);
      Regroup(s.popped, Ring(s.elements, Next(s.front, |s.elements|), s.rear), s.elements[s.front], Overflow(s));
    }
  }

  /** Every step of either thread keeps the queue a FIFO. */
  lemma StepKeeps<T>(s: State<T>, a: Action<T>)
    requires Inv(s) && Enabled(s, a)
    ensures Inv(Step(s, a))
  {
    match a
    case BeginPush(_) =>
    case BeginRefresh =>
    case Produce => ProducerKeeps(s);
    case Consume => ConsumerKeeps(s);
  }

  // ------------------------------------------------------------------ runs

  ghost predicate Initial<T>(s: State<T>) {
    && Formed(s) && s.front == s.rear && s.extend == [] && s.pushed == s.popped == []
    && s.producer == Outside && s.consumer == Away
  }

  /** s can be reached from the initial state by some interleaving of the two threads. */
  ghost predicate Runs<T(!new)>(start: State<T>, actions: seq<Action<T>>, s: State<T>)
    decreases |actions|
  {
    if actions == [] then s == start
    else
      exists mid :: Runs(start, actions[..|actions| - 1], mid)
        && Formed(mid) && Enabled(mid, actions[|actions| - 1]) && s == Step(mid, actions[|actions| - 1])
  }

  lemma {:induction false} RunKeeps<T(!new)>(start: State<T>, actions: seq<Action<T>>, s: State<T>)
    requires Initial(start) && Runs(start, actions, s)
    ensures Inv(s)
    decreases |actions|
  {
    if actions == [] {
    } else {
      var a := actions[|actions| - 1];
      var mid :| Runs(start, actions[..|actions| - 1], mid) && Formed(mid) && Enabled(mid, a) && s == Step(mid, a);
      RunKeeps(start, actions[..|actions| - 1], mid);
      StepKeeps(mid, a);
    }
  }

  /**
    In every interleaving, what has been popped is the oldest part of what has been pushed, in order, and the rest is
    in the queue.
   */
  lemma Conserved<T(!new)>(start: State<T>, actions: seq<Action<T>>, s: State<T>)
    requires Initial(start) && Runs(start, actions, s)
    ensures Formed(s) && s.pushed == s.popped + Fifo(s) && s.popped <= s.pushed
  {
    RunKeeps(start, actions, s);
  }

  /** While neither thread is inside a call, count gives the number of elements in the queue. */
  lemma QuietCount<T(!new)>(start: State<T>, actions: seq<Action<T>>, s: State<T>)
    requires Initial(start) && Runs(start, actions, s) && s.producer == Outside && s.consumer == Away
    ensures Formed(s) && |s.popped| <= |s.pushed|
    ensures (Count(s.front, s.rear, |s.elements|) + |s.extend|) % WORD == (|s.pushed| - |s.popped|) % WORD
  {
    RunKeeps(start, actions, s);
    CountIsUsed(s.front, s.rear, |s.elements|);
  }
}
