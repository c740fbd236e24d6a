/**
  Progress of the bounded queue: a call that runs alone returns after a fixed number of instructions with
  the answer that the queue's contents call for, and a call goes round its loop only because another
  thread has won the ticket it was after.
 */
module MpmcProgress {
  import opened MpmcQueue
  import Modular

  /** q after at most n further instructions of thread t, while all other threads stand still. */
  ghost function Alone<T>(q: Queue<T>, t: Tid, n: nat): Queue<T>
    requires Inv(q)
    decreases n
  {
    if n == 0 || !Enabled(q, t, Advance) then q
    else StepInv(q, t, Advance); Alone(Next(q, t, Advance), t, n - 1)
  }

  /** enqueue() has nowhere to put a value: N values are queued, or the cell it needs is still being emptied. */
  ghost predicate NoRoom<T>(q: Queue<T>)
    requires Inv(q)
  {
    var last := q.enqueuePos - q.size;
    |Contents(q)| == q.size || (0 <= last < q.dequeuePos && Emptying(PcOf(q, q.consumer[last]), last))
  }

  /** dequeue() has nothing to take: the queue is empty, or its first value is still being stored. */
  ghost predicate NoValue<T>(q: Queue<T>)
    requires Inv(q)
  {
    Contents(q) == [] || Storing(PcOf(q, q.producer[q.dequeuePos]), q.dequeuePos)
  }

  // ------------------------------------------------------------------ enqueue

  /** The loop of enqueue() before it wins a ticket or gives up. */
  predicate Trying<T>(pc: Pc<T>) {
    pc.EnqLoadCursor? || pc.EnqLoadSeq? || pc.EnqCas?
  }

  ghost predicate Enqueued<T>(q: Queue<T>, t: Tid, v: T, q': Queue<T>)
    requires Inv(q)
  {
    && Inv(q') && q'.dequeuePos == q.dequeuePos
    && if NoRoom(q) then PcOf(q', t) == EnqFull(v) && q'.claimed == q.claimed && Contents(q') == Contents(q)
       else && PcOf(q', t) == EnqDone(v, q.enqueuePos)
            && q'.claimed == q.claimed + [v] && Contents(q') == Contents(q) + [v]
  }

  /** From a successful exchange on: the value is stored and published. */
  lemma WinnerStores<T>(q: Queue<T>, t: Tid, n: nat)
    requires Inv(q) && PcOf(q, t).EnqCas? && PcOf(q, t).pos == q.enqueuePos && n >= 3
    ensures var q' := Alone(q, t, n);
            && Inv(q') && PcOf(q', t) == EnqDone(PcOf(q, t).v, q.enqueuePos) && q'.dequeuePos == q.dequeuePos
            && q'.claimed == q.claimed + [PcOf(q, t).v] && Contents(q') == Contents(q) + [PcOf(q, t).v]
  {
    StepRefinesFifo(q, t, Advance);
    var q1 := Next(q, t, Advance);
    StepInv(q1, t, Advance);
    var q2 := Next(q1, t, Advance);
    StepInv(q2, t, Advance);
    var q3 := Next(q2, t, Advance);
    assert Alone(q3, t, n - 3) == q3;
    assert Alone(q2, t, n - 2) == q3;
    assert Alone(q1, t, n - 1) == q3;
  }

  /** Moving a thread about in its loop changes neither condition. */
  lemma SameConditions<T>(q: Queue<T>, t: Tid, pc: Pc<T>)
    requires Inv(q) && !Holding(PcOf(q, t)) && !Holding(pc) && Inv(Goto(q, t, pc))
    ensures var q' := Goto(q, t, pc);
            NoRoom(q') == NoRoom(q) && NoValue(q') == NoValue(q) && Contents(q') == Contents(q)
  {
  }

  /** With the current cursor at hand: at most four more instructions. */
  lemma EnqueueAtCursor<T>(q: Queue<T>, t: Tid, n: nat)
    requires Inv(q) && PcOf(q, t).EnqLoadSeq? && PcOf(q, t).pos == q.enqueuePos && n >= 4
    ensures Enqueued(q, t, PcOf(q, t).v, Alone(q, t, n))
  {
    var v := PcOf(q, t).v;
    FullIff(q, t);
    StepInv(q, t, Advance);
    var q1 := Next(q, t, Advance);
    if NoRoom(q) {
      assert Alone(q1, t, n - 1) == q1;
    } else {
      CurrentCell(q);
      assert q1 == Goto(q, t, EnqCas(v, q.enqueuePos));
      WinnerStores(q1, t, n - 1);
    }
  }

  /** The cell of the next ticket never runs ahead of it. */
  lemma CurrentCell<T>(q: Queue<T>)
    requires Inv(q)
    ensures SeqAt(q, q.enqueuePos) <= q.enqueuePos
  {
    var pos, n, s := q.enqueuePos, q.size, SeqAt(q, q.enqueuePos);
    assert CellInv(q, pos % n);
    if s > pos { Modular.Apart(pos, s, n); }
  }

  /** A cursor that was read too early does not end the call. */
  lemma StaleTicket<T>(q: Queue<T>, t: Tid)
    requires Inv(q) && PcOf(q, t).EnqLoadSeq? && PcOf(q, t).pos != q.enqueuePos
    ensures var q1 := Next(q, t, Advance);
            q1 == Goto(q, t, EnqLoadCursor(PcOf(q, t).v)) || q1 == Goto(q, t, EnqCas(PcOf(q, t).v, PcOf(q, t).pos))
  {
    FullIsJustified(q, t);
  }

  /** A thread that has the current cursor after one instruction. */
  lemma EnqueueReloads<T>(q: Queue<T>, t: Tid, n: nat)
    requires Inv(q) && n >= 5
    requires PcOf(q, t).EnqLoadCursor? || (PcOf(q, t).EnqCas? && PcOf(q, t).pos != q.enqueuePos)
    ensures Enqueued(q, t, PcOf(q, t).v, Alone(q, t, n))
  {
    var pc := EnqLoadSeq(PcOf(q, t).v, q.enqueuePos);
    StepInv(q, t, Advance);
    SameConditions(q, t, pc);
    assert Next(q, t, Advance) == Goto(q, t, pc);
    EnqueueAtCursor(Goto(q, t, pc), t, n - 1);
  }

  lemma EnqueueStale<T>(q: Queue<T>, t: Tid, n: nat)
    requires Inv(q) && PcOf(q, t).EnqLoadSeq? && PcOf(q, t).pos != q.enqueuePos && n >= 6
    ensures Enqueued(q, t, PcOf(q, t).v, Alone(q, t, n))
  {
    StaleTicket(q, t);
    StepInv(q, t, Advance);
    var q1 := Next(q, t, Advance);
    SameConditions(q, t, PcOf(q1, t));
    EnqueueReloads(q1, t, n - 1);
  }

  lemma EnqueueWins<T>(q: Queue<T>, t: Tid, n: nat)
    requires Inv(q) && PcOf(q, t).EnqCas? && PcOf(q, t).pos == q.enqueuePos && n >= 3
    ensures Enqueued(q, t, PcOf(q, t).v, Alone(q, t, n))
  {
    WinnerStores(q, t, n);
    EnqCasFresh(q, t);
    var pc := EnqLoadSeq(PcOf(q, t).v, q.enqueuePos);
    StepInv(q, t, SpuriousFailure);
    SameConditions(q, t, pc);
    FullIff(Goto(q, t, pc), t);
  }

  /**
    From any state, a thread anywhere in the loop of enqueue() that runs alone is done after at most six
    instructions: with its value behind the others if there is room, and with a refusal otherwise.
   */
  lemma EnqueueAlone<T>(q: Queue<T>, t: Tid, n: nat)
    requires Inv(q) && Trying(PcOf(q, t)) && n >= 6
    ensures Enqueued(q, t, PcOf(q, t).v, Alone(q, t, n))
  {
    var pc := PcOf(q, t);
    if pc.EnqLoadSeq? {
      if pc.pos == q.enqueuePos {
        EnqueueAtCursor(q, t, n);
      } else {
        EnqueueStale(q, t, n);
      }
    } else if pc.EnqCas? && pc.pos == q.enqueuePos {
      EnqueueWins(q, t, n);
    } else {
      EnqueueReloads(q, t, n);
    }
  }

  // ------------------------------------------------------------------ dequeue

  /** The loop of dequeue() before it wins a ticket or gives up. */
  predicate Looking<T>(pc: Pc<T>) {
    pc.DeqLoadCursor? || pc.DeqLoadSeq? || pc.DeqCas?
  }

  ghost predicate Dequeued<T>(q: Queue<T>, t: Tid, q': Queue<T>)
    requires Inv(q)
  {
    && Inv(q') && q'.claimed == q.claimed
    && if NoValue(q) then PcOf(q', t) == DeqEmpty && Contents(q') == Contents(q)
       else PcOf(q', t) == DeqDone(q.dequeuePos, Contents(q)[0]) && Contents(q') == Contents(q)[1..]
  }

  lemma WinnerTakes<T>(q: Queue<T>, t: Tid, n: nat)
    requires Inv(q) && PcOf(q, t).DeqCas? && PcOf(q, t).pos == q.dequeuePos && n >= 3
    ensures var q' := Alone(q, t, n);
            && Inv(q') && q'.claimed == q.claimed && Contents(q) != []
            && PcOf(q', t) == DeqDone(q.dequeuePos, Contents(q)[0]) && Contents(q') == Contents(q)[1..]
  {
    DeqCasFresh(q, t);
    StepRefinesFifo(q, t, Advance);
    var q1 := Next(q, t, Advance);
    TakenOnce(q1, t);
    StepInv(q1, t, Advance);
    var q2 := Next(q1, t, Advance);
    StepInv(q2, t, Advance);
    var q3 := Next(q2, t, Advance);
    assert Alone(q3, t, n - 3) == q3;
    assert Alone(q2, t, n - 2) == q3;
    assert Alone(q1, t, n - 1) == q3;
  }

  /** The cell of the next ticket to be dequeued never runs further ahead than its publication. */
  lemma FirstCell<T>(q: Queue<T>)
    requires Inv(q)
    ensures SeqAt(q, q.dequeuePos) <= q.dequeuePos + 1
  {
    var pos, n, s := q.dequeuePos, q.size, SeqAt(q, q.dequeuePos);
    assert CellInv(q, pos % n);
    if s > pos + 1 {
      if Free(q, pos % n, s) { Modular.Apart(pos, s, n); } else { Modular.Apart(pos, s - 1, n); }
    }
  }

  lemma DequeueAtCursor<T>(q: Queue<T>, t: Tid, n: nat)
    requires Inv(q) && PcOf(q, t).DeqLoadSeq? && PcOf(q, t).pos == q.dequeuePos && n >= 4
    ensures Dequeued(q, t, Alone(q, t, n))
  {
    EmptyIff(q, t);
    StepInv(q, t, Advance);
    var q1 := Next(q, t, Advance);
    if NoValue(q) {
      assert Alone(q1, t, n - 1) == q1;
    } else {
      FirstCell(q);
      assert q1 == Goto(q, t, DeqCas(q.dequeuePos));
      WinnerTakes(q1, t, n - 1);
    }
  }

  lemma StaleLook<T>(q: Queue<T>, t: Tid)
    requires Inv(q) && PcOf(q, t).DeqLoadSeq? && PcOf(q, t).pos != q.dequeuePos
    ensures var q1 := Next(q, t, Advance);
            q1 == Goto(q, t, DeqLoadCursor) || q1 == Goto(q, t, DeqCas(PcOf(q, t).pos))
  {
    EmptyIsJustified(q, t);
  }

  lemma DequeueReloads<T>(q: Queue<T>, t: Tid, n: nat)
    requires Inv(q) && n >= 5
    requires PcOf(q, t).DeqLoadCursor? || (PcOf(q, t).DeqCas? && PcOf(q, t).pos != q.dequeuePos)
    ensures Dequeued(q, t, Alone(q, t, n))
  {
    var pc: Pc<T> := DeqLoadSeq(q.dequeuePos);
    StepInv(q, t, Advance);
    SameConditions(q, t, pc);
    assert Next(q, t, Advance) == Goto(q, t, pc);
    DequeueAtCursor(Goto(q, t, pc), t, n - 1);
  }

  lemma DequeueStale<T>(q: Queue<T>, t: Tid, n: nat)
    requires Inv(q) && PcOf(q, t).DeqLoadSeq? && PcOf(q, t).pos != q.dequeuePos && n >= 6
    ensures Dequeued(q, t, Alone(q, t, n))
  {
    StaleLook(q, t);
    StepInv(q, t, Advance);
    var q1 := Next(q, t, Advance);
    SameConditions(q, t, PcOf(q1, t));
    DequeueReloads(q1, t, n - 1);
  }

  lemma DequeueWins<T>(q: Queue<T>, t: Tid, n: nat)
    requires Inv(q) && PcOf(q, t).DeqCas? && PcOf(q, t).pos == q.dequeuePos && n >= 3
    ensures Dequeued(q, t, Alone(q, t, n))
  {
    WinnerTakes(q, t, n);
    DeqCasFresh(q, t);
    var pc: Pc<T> := DeqLoadSeq(q.dequeuePos);
    StepInv(q, t, SpuriousFailure);
    SameConditions(q, t, pc);
    EmptyIff(Goto(q, t, pc), t);
  }

  /**
    From any state, a thread anywhere in the loop of dequeue() that runs alone is done after at most six
    instructions: with the first value if there is one to take, and empty-handed otherwise.
   */
  lemma DequeueAlone<T>(q: Queue<T>, t: Tid, n: nat)
    requires Inv(q) && Looking(PcOf(q, t)) && n >= 6
    ensures Dequeued(q, t, Alone(q, t, n))
  {
    var pc := PcOf(q, t);
    if pc.DeqLoadSeq? {
      if pc.pos == q.dequeuePos {
        DequeueAtCursor(q, t, n);
      } else {
        DequeueStale(q, t, n);
      }
    } else if pc.DeqCas? && pc.pos == q.dequeuePos {
      DequeueWins(q, t, n);
    } else {
      DequeueReloads(q, t, n);
    }
  }

  // ------------------------------------------------------------------ threads that hold a ticket

  /** A thread that has won a ticket is done after two further instructions, and the others do not notice. */
  lemma HolderFinishes<T>(q: Queue<T>, t: Tid, n: nat)
    requires Inv(q) && Holding(PcOf(q, t)) && n >= 2
    ensures var pc, q' := PcOf(q, t), Alone(q, t, n);
            && Inv(q') && q'.claimed == q.claimed && q'.producer == q.producer && q'.dequeuePos == q.dequeuePos
            && if pc.EnqStore? || pc.EnqPublish? then PcOf(q', t) == EnqDone(pc.v, pc.pos)
               else pc.pos < |q.claimed| && PcOf(q', t) == DeqDone(pc.pos, q.claimed[pc.pos])
  {
    assert ThreadInv(q, t);
    if PcOf(q, t).DeqTake? { TakenOnce(q, t); }
    StepInv(q, t, Advance);
    var q1 := Next(q, t, Advance);
    if PcOf(q, t).EnqStore? || PcOf(q, t).DeqTake? {
      StepInv(q1, t, Advance);
      var q2 := Next(q1, t, Advance);
      assert Alone(q2, t, n - 2) == q2;
      assert Alone(q1, t, n - 1) == q2;
    } else {
      assert Alone(q1, t, n - 1) == q1;
    }
  }

  lemma {:induction false} AloneOthers<T>(q: Queue<T>, t: Tid, n: nat)
    requires Inv(q)
    ensures Inv(Alone(q, t, n)) && OnlyThreadMoved(q, t, Alone(q, t, n)) && Extends(q, Alone(q, t, n))
    decreases n
  {
    if n == 0 || !Enabled(q, t, Advance) {
    } else {
      StepInv(q, t, Advance);
      StepWins(q, t, Advance);
      StepExtends(q, t, Advance);
      var q1 := Next(q, t, Advance);
      AloneOthers(q1, t, n - 1);
      ExtendsTwice(q, q1, Alone(q1, t, n - 1));
    }
  }

  // ------------------------------------------------------------------ going round the loop

  /** The tickets that a thread still reckons with were won by others. */
  ghost predicate Outrun<T>(q: Queue<T>, t: Tid)
    requires Shaped(q)
  {
    match PcOf(q, t)
    case EnqLoadSeq(_, pos) => forall p | pos <= p < q.enqueuePos :: q.producer[p] != t
    case EnqCas(_, pos) => forall p | pos <= p < q.enqueuePos :: q.producer[p] != t
    case DeqLoadSeq(pos) => forall p | pos <= p < q.dequeuePos :: q.consumer[p] != t
    case DeqCas(pos) => forall p | pos <= p < q.dequeuePos :: q.consumer[p] != t
    case _ => true
  }

  /** Who wins tickets: only the thread that moves, and it leaves its loop. */
  lemma StepWins<T>(q: Queue<T>, t: Tid, a: Action<T>)
    requires Shaped(q) && Enabled(q, t, a)
    ensures var q' := Next(q, t, a);
            && OnlyThreadMoved(q, t, q')
            && (q'.producer == q.producer || (q'.producer == q.producer + [t] && PcOf(q', t).EnqStore?))
            && (q'.consumer == q.consumer || (q'.consumer == q.consumer + [t] && PcOf(q', t).DeqTake?))
  {
  }

  /** A thread's idea of the next ticket is the current cursor, or the one it had. */
  lemma StepCursor<T>(q: Queue<T>, t: Tid, a: Action<T>)
    requires Shaped(q) && Enabled(q, t, a)
    ensures var q' := Next(q, t, a);
            match PcOf(q', t)
            case EnqLoadSeq(_, pos) => pos == q'.enqueuePos
            case EnqCas(v, pos) => PcOf(q, t) == EnqLoadSeq(v, pos) && q'.enqueuePos == q.enqueuePos
            case DeqLoadSeq(pos) => pos == q'.dequeuePos
            case DeqCas(pos) => PcOf(q, t) == DeqLoadSeq(pos) && q'.dequeuePos == q.dequeuePos
            case _ => true
  {
  }

  lemma StepOutrun<T>(q: Queue<T>, t: Tid, a: Action<T>, u: Tid)
    requires Inv(q) && Enabled(q, t, a) && Outrun(q, u) && Shaped(Next(q, t, a))
    ensures Outrun(Next(q, t, a), u)
  {
    StepWins(q, t, a);
    StepCursor(q, t, a);
    var q' := Next(q, t, a);
    if u != t { OthersOutrun(q, q', t, u); } else { MoverOutrun(q, q', t); }
  }

  lemma OthersOutrun<T>(q: Queue<T>, q': Queue<T>, t: Tid, u: Tid)
    requires Shaped(q) && Shaped(q') && u != t && PcOf(q', u) == PcOf(q, u) && Outrun(q, u)
    requires q'.producer == q.producer || q'.producer == q.producer + [t]
    requires q'.consumer == q.consumer || q'.consumer == q.consumer + [t]
    ensures Outrun(q', u)
  {
  }

  lemma MoverOutrun<T>(q: Queue<T>, q': Queue<T>, t: Tid)
    requires Shaped(q) && Shaped(q') && Outrun(q, t)
    requires q'.producer == q.producer || PcOf(q', t).EnqStore?
    requires q'.consumer == q.consumer || PcOf(q', t).DeqTake?
    requires match PcOf(q', t)
             case EnqLoadSeq(_, pos) => pos == q'.enqueuePos
             case EnqCas(v, pos) => PcOf(q, t) == EnqLoadSeq(v, pos)
             case DeqLoadSeq(pos) => pos == q'.dequeuePos
             case DeqCas(pos) => PcOf(q, t) == DeqLoadSeq(pos)
             case _ => true
    ensures Outrun(q', t)
  {
  }

  lemma {:induction false} RunOutrun<T>(q: Queue<T>, events: seq<Event<T>>, q': Queue<T>, u: Tid)
    requires Inv(q) && Run(q, events, q') && Outrun(q, u)
    ensures Inv(q') && Outrun(q', u)
    decreases |events|
  {
    if events == [] {
    } else {
      StepInv(q, events[0].t, events[0].a);
      StepOutrun(q, events[0].t, events[0].a, u);
      RunOutrun(Next(q, events[0].t, events[0].a), events[1..], q', u);
    }
  }

  /** The thread goes back to read a cursor again, from where it compared a sequence or tried an exchange. */
  predicate GoesRound<T>(pc: Pc<T>, pc': Pc<T>) {
    || ((pc.EnqLoadSeq? || pc.EnqCas?) && (pc'.EnqLoadCursor? || pc'.EnqLoadSeq?))
    || ((pc.DeqLoadSeq? || pc.DeqCas?) && (pc'.DeqLoadCursor? || pc'.DeqLoadSeq?))
  }

  /**
    In every run, a thread goes round its loop only if the ticket it was after was won by another thread: so
    whenever calls are in their loops and keep taking steps, some call among them succeeds.
   */
  lemma RoundMeansOutrun<T>(size: nat, events: seq<Event<T>>, q: Queue<T>, t: Tid)
    requires size >= 2 && Run(Init(size), events, q) && Shaped(q) && Enabled(q, t, Advance)
    requires GoesRound(PcOf(q, t), PcOf(Next(q, t, Advance), t))
    ensures var pos := PcOf(q, t).pos;
            if Trying(PcOf(q, t)) then pos < q.enqueuePos && q.producer[pos] != t
            else pos < q.dequeuePos && q.consumer[pos] != t
  {
    InitInv<T>(size);
    RunOutrun(Init(size), events, q, t);
    assert ThreadInv(q, t);
    if PcOf(q, t).EnqLoadSeq? && PcOf(q, t).pos == q.enqueuePos { CurrentCell(q); }
    if PcOf(q, t).DeqLoadSeq? && PcOf(q, t).pos == q.dequeuePos { FirstCell(q); }
  }
}
