/** Progress of the single-producer queue: calls end, and everything pushed can be popped. */
module SingleProgress {
  import opened SingleQueue
  import opened Words

  // ------------------------------------------------------------------ the producer

  /** How many steps the producer's call still needs, at most. */
  function Work<T>(s: State<T>): nat {
    match s.producer
    case Outside => 0
    case Starting(_) => 4 * |s.extend| + 6
    case Writing(_) => 2
    case Advancing(_) => 1
    case Checking => 4 * |s.extend| + 1
    case Copying => 4 * |s.extend|
    case CopyAdvancing => if s.extend == [] then 0 else 4 * |s.extend| - 1
    case CopyPopping => if s.extend == [] then 0 else 4 * |s.extend| - 2
  }

  lemma ProducerAdvances<T>(s: State<T>)
    requires Inv(s) && s.producer != Outside
    ensures Inv(ProducerStep(s)) && Work(ProducerStep(s)) < Work(s)
  {
    ProducerKeeps(s);
  }

  /** The producer's call, to its end, while the consumer stands still. */
  ghost function CallEnds<T>(s: State<T>): State<T>
    requires Inv(s)
    decreases Work(s)
  {
    if s.producer == Outside then s else ProducerAdvances(s); CallEnds(ProducerStep(s))
  }

  /** The value that the call has still to add. */
  function Unpushed<T>(p: Producer<T>): seq<T> {
    if p.Starting? || p.Writing? || p.Advancing? then [p.value] else []
  }

  ghost predicate Moved<T>(s: State<T>, s': State<T>) {
    Inv(s') && s'.popped == s.popped && s'.front == s.front && s'.consumer == s.consumer
    && |s'.elements| == |s.elements|
  }

  lemma StepAdds<T>(s: State<T>)
    requires Inv(s) && s.producer != Outside
    ensures var s' := ProducerStep(s);
            && Moved(s, s') && s'.pushed + Unpushed(s'.producer) == s.pushed + Unpushed(s.producer)
            && (s'.producer == Outside ==> s'.extend == [] || IsFull(s'))
  {
    ProducerKeeps(s);
  }

  /**
    From every state a push or refresh that is left alone ends; the value has joined the others, and afterwards the
    overflow is empty or the ring full.
   */
  lemma {:induction false} CallFinishes<T>(s: State<T>)
    requires Inv(s) && s.producer != Outside
    ensures var s' := CallEnds(s);
            && s'.producer == Outside && Moved(s, s') && s'.pushed == s.pushed + Unpushed(s.producer)
            && (s'.extend == [] || IsFull(s'))
    decreases Work(s)
  {
    ProducerAdvances(s);
    StepAdds(s);
    var s1 := ProducerStep(s);
    if s1.producer != Outside { CallFinishes(s1); }
  }

  // ------------------------------------------------------------------ the consumer

  /** Looking for an element, reading it and removing it. */
  ghost function ConsumeOnce<T>(s: State<T>): State<T>
    requires Inv(s)
  {
    ConsumerKeeps(s);
    ConsumerKeeps(ConsumerStep(s));
    ConsumerStep(ConsumerStep(ConsumerStep(s)))
  }

  /** A consumer that is left alone takes the first element of the ring, or finds it empty. */
  lemma ConsumerTakes<T>(s: State<T>)
    requires Inv(s) && s.consumer == Away
    ensures var s', ring := ConsumeOnce(s), Ring(s.elements, s.front, s.rear);
            && Inv(s') && s'.consumer == Away && s'.pushed == s.pushed && s'.extend == s.extend
            && s'.producer == s.producer && |s'.elements| == |s.elements|
            && s'.popped == s.popped + (if ring == [] then [] else [ring[0]])
  {
    ConsumerKeeps(s);
    var s1 := ConsumerStep(s);
    ConsumerKeeps(s1);
    var s2 := ConsumerStep(s1);
    ConsumerKeeps(s2);
    if s.front != s.rear { PopRemoves(s.elements, s.front, s.rear); }
  }

  // ------------------------------------------------------------------ draining

  ghost predicate Reaches<T(!new)>(s: State<T>, s': State<T>) {
    exists actions :: Runs(s, actions, s')
  }

  lemma ReachesStep<T(!new)>(s: State<T>, s1: State<T>, a: Action<T>)
    requires Reaches(s, s1) && Formed(s1) && Enabled(s1, a)
    ensures Reaches(s, Step(s1, a))
  {
    var actions :| Runs(s, actions, s1);
    var more := actions + [a];
    assert more[..|more| - 1] == actions;
    assert Runs(s, more, Step(s1, a));
  }

  lemma ReachesSelf<T(!new)>(s: State<T>)
    ensures Reaches(s, s)
  {
    assert Runs(s, [], s);
  }

  lemma {:induction false} ReachesCallEnd<T(!new)>(s: State<T>, s1: State<T>)
    requires Reaches(s, s1) && Inv(s1)
    ensures Reaches(s, CallEnds(s1))
    decreases Work(s1)
  {
    if s1.producer != Outside {
      ProducerAdvances(s1);
      ReachesStep(s, s1, Produce);
      ReachesCallEnd(s, ProducerStep(s1));
    }
  }

  lemma ReachesConsumed<T(!new)>(s: State<T>, s1: State<T>)
    requires Reaches(s, s1) && Inv(s1)
    ensures Reaches(s, ConsumeOnce(s1))
  {
    ConsumerKeeps(s1);
    ConsumerKeeps(ConsumerStep(s1));
    ReachesStep(s, s1, Consume);
    ReachesStep(s, ConsumerStep(s1), Consume);
    ReachesStep(s, ConsumerStep(ConsumerStep(s1)), Consume);
  }

  /** Neither thread is inside a call. */
  ghost predicate Quiet<T(!new)>(s: State<T>) {
    Inv(s) && s.producer == Outside && s.consumer == Away
  }

  /** With a ring that holds at least one element, refresh brings something into an empty one. */
  lemma Refills<T(!new)>(s: State<T>) returns (s': State<T>)
    requires Quiet(s) && |s.elements| >= 2 && s.front == s.rear && s.extend != []
    ensures Reaches(s, s') && Quiet(s') && s'.front != s'.rear
    ensures s'.pushed == s.pushed && s'.popped == s.popped && |s'.elements| == |s.elements|
  {
    var s1 := Step(s, BeginRefresh);
    ReachesSelf(s);
    ReachesStep(s, s, BeginRefresh);
    CallFinishes(s1);
    s' := CallEnds(s1);
    ReachesCallEnd(s, s1);
    FullIsUsed(s'.front, s'.rear, |s'.elements|);
  }

  /**
    With a capacity of at least one, whatever has been pushed can be popped: from every quiet state refreshing and
    consuming lead to one in which all that was pushed has been popped.
   */
  lemma {:induction false} EverythingDrains<T(!new)>(s: State<T>)
    requires Quiet(s) && |s.elements| >= 2
    ensures exists s' :: Reaches(s, s') && s'.pushed == s.pushed == s'.popped
    decreases |Fifo(s)|
  {
    ReachesSelf(s);
    if Fifo(s) == [] {
    } else {
      var s1 := s;
      if s.front == s.rear { s1 := Refills(s); }
      ConsumerTakes(s1);
      ReachesConsumed(s, s1);
      var s2 := ConsumeOnce(s1);
      EverythingDrains(s2);
      var s' :| Reaches(s2, s') && s'.pushed == s2.pushed == s'.popped;
      ReachesOn(s, s2, s');
    }
  }

  lemma ReachesOn<T(!new)>(s: State<T>, s1: State<T>, s2: State<T>)
    requires Reaches(s, s1) && Reaches(s1, s2)
    ensures Reaches(s, s2)
  {
    var more :| Runs(s1, more, s2);
    RunOn(s, s1, more, s2);
  }

  lemma {:induction false} RunOn<T(!new)>(s: State<T>, s1: State<T>, more: seq<Action<T>>, s2: State<T>)
    requires Reaches(s, s1) && Runs(s1, more, s2)
    ensures Reaches(s, s2)
    decreases |more|
  {
    if more == [] {
    } else {
      var a := more[|more| - 1];
      var mid :| Runs(s1, more[..|more| - 1], mid) && Formed(mid) && Enabled(mid, a) && s2 == Step(mid, a);
      RunOn(s, s1, more[..|more| - 1], mid);
      ReachesStep(s, mid, a);
    }
  }

  lemma ZeroStep<T>(s: State<T>, a: Action<T>)
    requires Inv(s) && Enabled(s, a) && |s.elements| == 1
    ensures |Step(s, a).elements| == 1 && Step(s, a).popped == s.popped
  {
    assert s.front == s.rear == 0;
    match a
    case Produce => StepAdds(s);
    case _ =>
  }

  /** With a capacity of zero the ring takes nothing: in no run is anything popped. */
  lemma {:induction false} NothingPassesZeroCapacity<T(!new)>(start: State<T>, actions: seq<Action<T>>, s: State<T>)
    requires Initial(start) && Runs(start, actions, s) && |start.elements| == 1
    ensures |s.elements| == 1 && s.popped == []
    decreases |actions|
  {
    if actions == [] {
    } else {
      var a := actions[|actions| - 1];
      var mid :| Runs(start, actions[..|actions| - 1], mid) && Formed(mid) && Enabled(mid, a) && s == Step(mid, a);
      NothingPassesZeroCapacity(start, actions[..|actions| - 1], mid);
      RunKeeps(start, actions[..|actions| - 1], mid);
      ZeroStep(mid, a);
    }
  }
}
