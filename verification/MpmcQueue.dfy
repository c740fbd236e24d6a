/**
  The bounded multi-producer/multi-consumer queue of spdlog as a transition system.

  Every thread carries a program counter; each atomic load, compare-exchange, data
  move and release store of enqueue() and dequeue() is one step.  Tickets are
  unbounded naturals and memory is sequentially consistent.

  The last four fields of Queue are history: they record who won each ticket and
  what was stored and taken under it, and no step reads them to decide anything.
 */
module MpmcQueue {
  import opened Wrappers
  import Bits
  import Modular

  type Tid = nat

  /** Where a thread stands; the constructor names the instruction it executes next. */
  datatype Pc<T> =
    | Idle
    | EnqLoadCursor(v: T)
    | EnqLoadSeq(v: T, pos: nat)
    | EnqCas(v: T, pos: nat)
    | EnqStore(v: T, pos: nat)
    | EnqPublish(v: T, pos: nat)
    | EnqDone(v: T, pos: nat)
    | EnqFull(v: T)
    | DeqLoadCursor
    | DeqLoadSeq(pos: nat)
    | DeqCas(pos: nat)
    | DeqTake(pos: nat)
    | DeqRelease(pos: nat, v: T)
    | DeqDone(pos: nat, v: T)
    | DeqEmpty

  datatype Cell<T> = Cell(sequence: nat, data: Option<T>)

  datatype Queue<T> = Queue(
    size: nat,
    cells: seq<Cell<T>>,
    enqueuePos: nat,
    dequeuePos: nat,
    threads: map<Tid, Pc<T>>,
    claimed: seq<T>,
    producer: seq<Tid>,
    consumer: seq<Tid>,
    taken: map<nat, T>)

  /** SpuriousFailure is the weak compare-exchange failing although the values match. */
  datatype Action<T> = CallEnqueue(v: T) | CallDequeue | Advance | SpuriousFailure | Return

  predicate Shaped<T>(q: Queue<T>) {
    && q.size >= 2
    && |q.cells| == q.size
    && |q.claimed| == |q.producer| == q.enqueuePos
    && |q.consumer| == q.dequeuePos
  }

  function PcOf<T>(q: Queue<T>, t: Tid): Pc<T> {
    if t in q.threads then q.threads[t] else Idle
  }

  function SeqAt<T>(q: Queue<T>, pos: nat): nat
    requires Shaped(q)
  {
    q.cells[pos % q.size].sequence
  }

  function DataAt<T>(q: Queue<T>, pos: nat): Option<T>
    requires Shaped(q)
  {
    q.cells[pos % q.size].data
  }

  function Init<T>(size: nat): Queue<T> {
    Queue(size, seq(size, (i: nat) => Cell(i, None)), 0, 0, map[], [], [], [], map[])
  }

  /** The constructor: it accepts exactly the powers of two from 2 on, and numbers the cells. */
  method Create<T>(bufferSize: nat) returns (r: Option<Queue<T>>)
    ensures r.Some? <==> bufferSize >= 2 && Bits.IsPow2(bufferSize)
    ensures r.Some? ==> r.value == Init(bufferSize)
  {
    if bufferSize >= 1 { Bits.PowerOfTwoTest(bufferSize); }
    if !(bufferSize >= 2 && Bits.BitAnd(bufferSize, bufferSize - 1) == 0) {
      return None;
    }
    var cells: seq<Cell<T>> := [];
    for i := 0 to bufferSize
      invariant cells == seq(i, (j: nat) => Cell(j, None))
    {
      cells := cells + [Cell(i, None)];
    }
    r := Some(Queue(bufferSize, cells, 0, 0, map[], [], [], [], map[]));
  }

  predicate Enabled<T>(q: Queue<T>, t: Tid, a: Action<T>) {
    var pc := PcOf(q, t);
    match a
    case CallEnqueue(_) => pc.Idle?
    case CallDequeue => pc.Idle?
    case Return => pc.EnqDone? || pc.EnqFull? || pc.DeqDone? || pc.DeqEmpty?
    case SpuriousFailure => pc.EnqCas? || pc.DeqCas?
    case Advance => !(pc.Idle? || pc.EnqDone? || pc.EnqFull? || pc.DeqDone? || pc.DeqEmpty?)
  }

  function Goto<T>(q: Queue<T>, t: Tid, pc: Pc<T>): Queue<T> {
    q.(threads := q.threads[t := pc])
  }

  function SetCell<T>(q: Queue<T>, pos: nat, c: Cell<T>): Queue<T>
    requires Shaped(q)
  {
    q.(cells := q.cells[pos % q.size := c])
  }

  /** One instruction of thread t. */
  function Next<T>(q: Queue<T>, t: Tid, a: Action<T>): Queue<T>
    requires Shaped(q) && Enabled(q, t, a)
  {
    match a
    case CallEnqueue(v) => Goto(q, t, EnqLoadCursor(v))
    case CallDequeue => Goto(q, t, DeqLoadCursor)
    case Return => Goto(q, t, Idle)
    case SpuriousFailure => CasFailed(q, t)
    case Advance => Execute(q, t)
  }

  /** A failed compare-exchange leaves the current cursor in pos and goes round the loop. */
  function CasFailed<T>(q: Queue<T>, t: Tid): Queue<T>
    requires PcOf(q, t).EnqCas? || PcOf(q, t).DeqCas?
  {
    match PcOf(q, t)
    case EnqCas(v, _) => Goto(q, t, EnqLoadSeq(v, q.enqueuePos))
    case DeqCas(_) => Goto(q, t, DeqLoadSeq(q.dequeuePos))
  }

  function Execute<T>(q: Queue<T>, t: Tid): Queue<T>
    requires Shaped(q) && Enabled(q, t, Advance)
  {
    match PcOf(q, t)
    case EnqLoadCursor(v) => Goto(q, t, EnqLoadSeq(v, q.enqueuePos))
    case EnqLoadSeq(v, pos) =>
      if SeqAt(q, pos) == pos then Goto(q, t, EnqCas(v, pos))
      else if SeqAt(q, pos) < pos then Goto(q, t, EnqFull(v))
      else Goto(q, t, EnqLoadCursor(v))
    case EnqCas(v, pos) =>
      if q.enqueuePos == pos then
        Goto(q, t, EnqStore(v, pos)).(
          enqueuePos := pos + 1, claimed := q.claimed + [v], producer := q.producer + [t])
      else CasFailed(q, t)
    case EnqStore(v, pos) =>
      Goto(SetCell(q, pos, Cell(SeqAt(q, pos), Some(v))), t, EnqPublish(v, pos))
    case EnqPublish(v, pos) =>
      Goto(SetCell(q, pos, Cell(pos + 1, DataAt(q, pos))), t, EnqDone(v, pos))
    case DeqLoadCursor => Goto(q, t, DeqLoadSeq(q.dequeuePos))
    case DeqLoadSeq(pos) =>
      if SeqAt(q, pos) == pos + 1 then Goto(q, t, DeqCas(pos))
      else if SeqAt(q, pos) < pos + 1 then Goto(q, t, DeqEmpty)
      else Goto(q, t, DeqLoadCursor)
    case DeqCas(pos) =>
      if q.dequeuePos == pos then
        Goto(q, t, DeqTake(pos)).(dequeuePos := pos + 1, consumer := q.consumer + [t])
      else CasFailed(q, t)
    case DeqTake(pos) =>
      // The move leaves a moved-from object behind; reading the cell before it is
      // written again would find nothing.
      (match DataAt(q, pos)
       case None => Goto(q, t, DeqEmpty)
       case Some(v) =>
         Goto(SetCell(q, pos, Cell(SeqAt(q, pos), None)), t, DeqRelease(pos, v)).(
           taken := q.taken[pos := v]))
    case DeqRelease(pos, v) =>
      Goto(SetCell(q, pos, Cell(pos + q.size, DataAt(q, pos))), t, DeqDone(pos, v))
  }

  // ------------------------------------------------------------------ invariant

  /** The cell is free for ticket p: the only ticket of this cell in the window that opens at dequeuePos. */
  ghost predicate Free<T>(q: Queue<T>, i: nat, p: nat)
    requires q.size > 0
  {
    p % q.size == i && q.dequeuePos <= p < q.dequeuePos + q.size
  }

  /** The cell carries ticket p: the only ticket of this cell in the window that closes at enqueuePos. */
  ghost predicate Carries<T>(q: Queue<T>, i: nat, p: nat)
    requires Shaped(q) && i < q.size
  {
    && p % q.size == i && p < q.enqueuePos <= p + q.size
    && (p in q.taken || q.cells[i].data == Some(q.claimed[p]))
  }

  ghost predicate CellInv<T>(q: Queue<T>, i: nat)
    requires Shaped(q) && i < q.size
  {
    var s := q.cells[i].sequence;
    Free(q, i, s) || (s > 0 && Carries(q, i, s - 1))
  }

  ghost predicate Owns<T>(q: Queue<T>, t: Tid, v: T, pos: nat)
    requires Shaped(q)
  {
    pos < q.enqueuePos && SeqAt(q, pos) == pos && q.claimed[pos] == v && q.producer[pos] == t
  }

  ghost predicate ThreadInv<T>(q: Queue<T>, t: Tid)
    requires Shaped(q)
  {
    match PcOf(q, t)
    case EnqLoadSeq(_, pos) => pos <= q.enqueuePos
    case EnqCas(_, pos) => pos <= q.enqueuePos && SeqAt(q, pos) >= pos
    case EnqStore(v, pos) => Owns(q, t, v, pos)
    case EnqPublish(v, pos) => Owns(q, t, v, pos) && DataAt(q, pos) == Some(v)
    case EnqDone(v, pos) => pos < q.enqueuePos && q.claimed[pos] == v && q.producer[pos] == t && Published(q, pos)
    case DeqLoadSeq(pos) => pos <= q.dequeuePos
    case DeqCas(pos) => pos <= q.dequeuePos && SeqAt(q, pos) >= pos + 1
    case DeqTake(pos) =>
      pos < q.dequeuePos && SeqAt(q, pos) == pos + 1 && q.consumer[pos] == t && pos !in q.taken
    case DeqRelease(pos, v) =>
      pos < q.dequeuePos <= q.enqueuePos && SeqAt(q, pos) == pos + 1 && q.consumer[pos] == t
      && pos in q.taken && v == q.claimed[pos]
    case DeqDone(pos, v) =>
      pos < q.dequeuePos <= q.enqueuePos && q.consumer[pos] == t && pos in q.taken && v == q.claimed[pos]
    case _ => true
  }

  /** Ticket p was won and its release store has happened. */
  ghost predicate Published<T>(q: Queue<T>, p: nat)
    requires Shaped(q)
  {
    p < q.enqueuePos && SeqAt(q, p) > p
  }

  /** Ticket p was dequeued and its cell handed back. */
  ghost predicate Released<T>(q: Queue<T>, p: nat)
    requires Shaped(q)
  {
    p < q.dequeuePos && SeqAt(q, p) > p + 1
  }

  ghost predicate Storing<T>(pc: Pc<T>, p: nat) {
    (pc.EnqStore? || pc.EnqPublish?) && pc.pos == p
  }

  /** Nothing is lost: an unfinished ticket is in the hands of the thread that won it. */
  ghost predicate TicketInv<T>(q: Queue<T>, p: nat)
    requires Shaped(q)
  {
    && (p < q.enqueuePos && !Published(q, p) ==> Storing(PcOf(q, q.producer[p]), p))
    && (p < q.dequeuePos <= q.enqueuePos ==>
          if p !in q.taken then PcOf(q, q.consumer[p]) == DeqTake(p)
          else !Released(q, p) ==> PcOf(q, q.consumer[p]) == DeqRelease(p, q.claimed[p]))
    && (p in q.taken ==> p < q.dequeuePos <= q.enqueuePos && q.taken[p] == q.claimed[p])
  }

  ghost predicate Inv<T>(q: Queue<T>) {
    && Shaped(q)
    && q.dequeuePos <= q.enqueuePos <= q.dequeuePos + q.size
    && (forall i: nat | i < q.size :: CellInv(q, i))
    && (forall t: Tid :: ThreadInv(q, t))
    && (forall p: nat :: TicketInv(q, p))
  }

  // -------------------------------------------------------------- preservation

  lemma InitInv<T>(size: nat)
    requires size >= 2
    ensures Inv(Init<T>(size))
  {
    var q := Init<T>(size);
    forall i: nat | i < size ensures CellInv(q, i) {
      Modular.Remainder(0, i, size);
      assert Free(q, i, i);
    }
    forall t: Tid ensures ThreadInv(q, t) {
      assert PcOf(q, t) == Idle;
    }
    forall p: nat ensures TicketInv(q, p) {
    }
  }

  ghost predicate Holding<T>(pc: Pc<T>) {
    pc.EnqStore? || pc.EnqPublish? || pc.DeqTake? || pc.DeqRelease?
  }

  /** Moving a thread that holds no ticket to a place that claims none changes nothing else. */
  lemma GotoInv<T>(q: Queue<T>, t: Tid, pc: Pc<T>)
    requires Inv(q) && !Holding(PcOf(q, t)) && !Holding(pc)
    requires ThreadInv(Goto(q, t, pc), t)
    ensures Inv(Goto(q, t, pc))
  {
    var q' := Goto(q, t, pc);
    forall i: nat | i < q'.size ensures CellInv(q', i) {
      assert CellInv(q, i);
    }
    forall u: Tid ensures ThreadInv(q', u) {
      assert ThreadInv(q, u);
    }
    forall p: nat ensures TicketInv(q', p) {
      assert TicketInv(q, p);
    }
  }

  /** A compare-exchange on enqueuePos that succeeds still finds the cell free. */
  lemma EnqCasFresh<T>(q: Queue<T>, t: Tid)
    requires Inv(q) && PcOf(q, t).EnqCas? && PcOf(q, t).pos == q.enqueuePos
    ensures SeqAt(q, q.enqueuePos) == q.enqueuePos && q.enqueuePos < q.dequeuePos + q.size
  {
    var pos, n := q.enqueuePos, q.size;
    assert ThreadInv(q, t);
    var i := pos % n;
    assert CellInv(q, i);
    var s := q.cells[i].sequence;
    if Free(q, i, s) {
      if s > pos { Modular.Apart(pos, s, n); }
    } else {
      Modular.Apart(s - 1, pos, n);
    }
  }

  lemma EnqCasInv<T>(q: Queue<T>, t: Tid)
    requires Inv(q) && PcOf(q, t).EnqCas? && PcOf(q, t).pos == q.enqueuePos
    ensures Inv(Execute(q, t))
  {
    var pos, n := q.enqueuePos, q.size;
    var v := PcOf(q, t).v;
    EnqCasFresh(q, t);
    var q' := Execute(q, t);
    forall i: nat | i < n ensures CellInv(q', i) {
      assert CellInv(q, i);
      var s := q.cells[i].sequence;
      if s > 0 && Carries(q, i, s - 1) {
        Modular.NextRound(s - 1, n);
      }
    }
    forall u: Tid ensures ThreadInv(q', u) {
      assert ThreadInv(q, u);
    }
    forall p: nat ensures TicketInv(q', p) {
      assert TicketInv(q, p);
    }
  }

  /** A compare-exchange on dequeuePos that succeeds still finds the ticket published. */
  lemma DeqCasFresh<T>(q: Queue<T>, t: Tid)
    requires Inv(q) && PcOf(q, t).DeqCas? && PcOf(q, t).pos == q.dequeuePos
    ensures SeqAt(q, q.dequeuePos) == q.dequeuePos + 1 && q.dequeuePos < q.enqueuePos
  {
    var pos, n := q.dequeuePos, q.size;
    assert ThreadInv(q, t);
    var i := pos % n;
    assert CellInv(q, i);
    var s := q.cells[i].sequence;
    if Free(q, i, s) {
      Modular.Apart(pos, s, n);
    } else if s - 1 > pos {
      Modular.Apart(pos, s - 1, n);
    }
  }

  lemma DeqCasInv<T>(q: Queue<T>, t: Tid)
    requires Inv(q) && PcOf(q, t).DeqCas? && PcOf(q, t).pos == q.dequeuePos
    ensures Inv(Execute(q, t))
  {
    DeqCasFresh(q, t);
    var q' := Execute(q, t);
    forall i: nat | i < q.size ensures CellInv(q', i) {
      DeqCasCell(q, q', t, i);
    }
    forall u: Tid ensures ThreadInv(q', u) {
      assert ThreadInv(q, u);
      assert TicketInv(q, q.dequeuePos);
    }
    forall p: nat ensures TicketInv(q', p) {
      assert TicketInv(q, p);
    }
  }

  lemma DeqCasCell<T>(q: Queue<T>, q': Queue<T>, t: Tid, i: nat)
    requires Inv(q) && PcOf(q, t).DeqCas? && PcOf(q, t).pos == q.dequeuePos
    requires q' == Execute(q, t) && i < q.size
    ensures CellInv(q', i)
  {
    DeqCasFresh(q, t);
    assert CellInv(q, i);
    var s := q.cells[i].sequence;
    if Free(q, i, s) {
      assert s != q.dequeuePos;
      assert Free(q', i, s);
    } else {
      assert Carries(q', i, s - 1);
    }
  }

  /** A producer between its compare-exchange and its release store faces a free cell. */
  lemma OwnerSeesFree<T>(q: Queue<T>, t: Tid)
    requires Inv(q) && (PcOf(q, t).EnqStore? || PcOf(q, t).EnqPublish?)
    ensures var pos := PcOf(q, t).pos;
            Owns(q, t, PcOf(q, t).v, pos) && q.dequeuePos <= pos && q.enqueuePos <= pos + q.size
  {
    assert ThreadInv(q, t);
    var pos := PcOf(q, t).pos;
    assert CellInv(q, pos % q.size);
    if !Free(q, pos % q.size, pos) {
      Modular.Apart(pos - 1, pos, q.size);
    }
  }

  /** A consumer between its compare-exchange and its release store faces its own ticket's cell. */
  lemma TakerSeesTicket<T>(q: Queue<T>, t: Tid)
    requires Inv(q) && (PcOf(q, t).DeqTake? || PcOf(q, t).DeqRelease?)
    ensures var pos := PcOf(q, t).pos;
            pos < q.dequeuePos && SeqAt(q, pos) == pos + 1 && Carries(q, pos % q.size, pos)
  {
    assert ThreadInv(q, t);
    var pos := PcOf(q, t).pos;
    assert CellInv(q, pos % q.size);
    if Free(q, pos % q.size, pos + 1) {
      Modular.Apart(pos, pos + 1, q.size);
    }
  }

  /** At most one thread is between its compare-exchange and its release store on a cell. */
  lemma OneHolderPerCell<T>(q: Queue<T>, t: Tid, u: Tid)
    requires Inv(q) && Holding(PcOf(q, t)) && Holding(PcOf(q, u))
    requires PcOf(q, t).pos % q.size == PcOf(q, u).pos % q.size
    ensures t == u
  {
    assert ThreadInv(q, t) && ThreadInv(q, u);
    var a, b := PcOf(q, t).pos, PcOf(q, u).pos;
    if a < b { Modular.Apart(a, b, q.size); }
    if b < a { Modular.Apart(b, a, q.size); }
  }

  /** Rewriting the cell of a held ticket disturbs only the thread that holds it. */
  lemma OtherThreads<T>(q: Queue<T>, t: Tid, q': Queue<T>, u: Tid)
    requires Inv(q) && Holding(PcOf(q, t)) && Shaped(q') && q'.size == q.size && u != t
    requires q' == SetCell(q, PcOf(q, t).pos, q'.cells[PcOf(q, t).pos % q.size]).(
                     threads := q'.threads, taken := q'.taken)
    requires PcOf(q', u) == PcOf(q, u)
    requires q'.taken == q.taken || (PcOf(q, t).DeqTake? && q'.taken.Keys == q.taken.Keys + {PcOf(q, t).pos})
    requires SeqAt(q', PcOf(q, t).pos) >= SeqAt(q, PcOf(q, t).pos)
    ensures ThreadInv(q', u)
  {
    assert ThreadInv(q, u) && ThreadInv(q, t);
    if Holding(PcOf(q, u)) && PcOf(q, u).pos % q.size == PcOf(q, t).pos % q.size {
      OneHolderPerCell(q, t, u);
    }
  }

  lemma StoreInv<T>(q: Queue<T>, t: Tid)
    requires Inv(q) && PcOf(q, t).EnqStore?
    ensures Inv(Execute(q, t))
  {
    var pos, n := PcOf(q, t).pos, q.size;
    OwnerSeesFree(q, t);
    var q' := Execute(q, t);
    forall i: nat | i < n ensures CellInv(q', i) {
      assert CellInv(q, i);
      assert i == pos % n ==> Free(q', i, pos);
    }
    forall u: Tid ensures ThreadInv(q', u) {
      if u != t { OtherThreads(q, t, q', u); }
    }
    forall p: nat ensures TicketInv(q', p) {
      assert TicketInv(q, p);
    }
  }

  lemma PublishInv<T>(q: Queue<T>, t: Tid)
    requires Inv(q) && PcOf(q, t).EnqPublish?
    ensures Inv(Execute(q, t))
  {
    var pos, n := PcOf(q, t).pos, q.size;
    assert ThreadInv(q, t);
    OwnerSeesFree(q, t);
    var q' := Execute(q, t);
    forall i: nat | i < n ensures CellInv(q', i) {
      assert CellInv(q, i);
      assert i == pos % n ==> Carries(q', i, pos);
    }
    forall u: Tid ensures ThreadInv(q', u) {
      if u != t { OtherThreads(q, t, q', u); }
    }
    forall p: nat ensures TicketInv(q', p) {
      assert TicketInv(q, p);
      if p % n == pos % n && pos < p { Modular.Apart(pos, p, n); }
    }
  }

  lemma TakeInv<T>(q: Queue<T>, t: Tid)
    requires Inv(q) && PcOf(q, t).DeqTake?
    ensures Inv(Execute(q, t))
  {
    var pos, n := PcOf(q, t).pos, q.size;
    assert ThreadInv(q, t);
    TakerSeesTicket(q, t);
    var q' := Execute(q, t);
    forall i: nat | i < n ensures CellInv(q', i) {
      assert CellInv(q, i);
      assert i == pos % n ==> Carries(q', i, pos);
    }
    forall u: Tid ensures ThreadInv(q', u) {
      if u != t { OtherThreads(q, t, q', u); }
    }
    forall p: nat ensures TicketInv(q', p) {
      assert TicketInv(q, p);
    }
  }

  lemma ReleaseInv<T>(q: Queue<T>, t: Tid)
    requires Inv(q) && PcOf(q, t).DeqRelease?
    ensures Inv(Execute(q, t))
  {
    var pos, n := PcOf(q, t).pos, q.size;
    assert ThreadInv(q, t);
    TakerSeesTicket(q, t);
    var q' := Execute(q, t);
    Modular.NextRound(pos, n);
    forall i: nat | i < n ensures CellInv(q', i) {
      assert CellInv(q, i);
      assert i == pos % n ==> Free(q', i, pos + n);
    }
    forall u: Tid ensures ThreadInv(q', u) {
      if u != t { OtherThreads(q, t, q', u); }
    }
    forall p: nat ensures TicketInv(q', p) {
      assert TicketInv(q, p);
      if p % n == pos % n && pos < p { Modular.Apart(pos, p, n); }
    }
  }

  /** The thread's next instruction wins a ticket, or is one of those between winning and releasing. */
  predicate Acting<T>(q: Queue<T>, t: Tid, a: Action<T>) {
    var pc := PcOf(q, t);
    a.Advance? && (pc.EnqStore? || pc.EnqPublish? || pc.DeqTake? || pc.DeqRelease?
                   || (pc.EnqCas? && pc.pos == q.enqueuePos) || (pc.DeqCas? && pc.pos == q.dequeuePos))
  }

  /** Every other instruction only moves the thread on. */
  lemma PlainStep<T>(q: Queue<T>, t: Tid, a: Action<T>)
    requires Shaped(q) && Enabled(q, t, a) && !Acting(q, t, a) && ThreadInv(q, t)
    ensures var pc := PcOf(Next(q, t, a), t);
            Next(q, t, a) == Goto(q, t, pc) && !Holding(PcOf(q, t)) && !Holding(pc) && ThreadInv(Goto(q, t, pc), t)
  {
  }

  lemma ActingInv<T>(q: Queue<T>, t: Tid)
    requires Inv(q) && Enabled(q, t, Advance) && Acting(q, t, Advance)
    ensures Inv(Next(q, t, Advance))
  {
    match PcOf(q, t)
    case EnqStore(_, _) => StoreInv(q, t);
    case EnqPublish(_, _) => PublishInv(q, t);
    case DeqTake(_) => TakeInv(q, t);
    case DeqRelease(_, _) => ReleaseInv(q, t);
    case EnqCas(_, _) => EnqCasInv(q, t);
    case DeqCas(_) => DeqCasInv(q, t);
  }

  /** Every instruction of every thread keeps the invariant. */
  lemma StepInv<T>(q: Queue<T>, t: Tid, a: Action<T>)
    requires Inv(q) && Enabled(q, t, a)
    ensures Inv(Next(q, t, a))
  {
    if Acting(q, t, a) {
      ActingInv(q, t);
    } else {
      assert ThreadInv(q, t);
      PlainStep(q, t, a);
      GotoInv(q, t, PcOf(Next(q, t, a), t));
    }
  }

  // -------------------------------------------------------------- whole runs

  datatype Event<T> = Event(t: Tid, a: Action<T>)

  /** q' is reached from q by executing the events in order, whatever the interleaving. */
  ghost predicate Run<T>(q: Queue<T>, events: seq<Event<T>>, q': Queue<T>)
    decreases |events|
  {
    if events == [] then q == q'
    else Shaped(q) && Enabled(q, events[0].t, events[0].a)
         && Run(Next(q, events[0].t, events[0].a), events[1..], q')
  }

  /** The size stays, the cursors go forward, and the histories only grow. */
  ghost predicate Extends<T>(q: Queue<T>, q': Queue<T>) {
    && q'.size == q.size && q.enqueuePos <= q'.enqueuePos && q.dequeuePos <= q'.dequeuePos
    && q.claimed <= q'.claimed && q.producer <= q'.producer && q.consumer <= q'.consumer
    && forall p :: p in q.taken ==> p in q'.taken && q'.taken[p] == q.taken[p]
  }

  lemma StepExtends<T>(q: Queue<T>, t: Tid, a: Action<T>)
    requires Inv(q) && Enabled(q, t, a)
    ensures Extends(q, Next(q, t, a))
  {
    if a.Advance? && PcOf(q, t).DeqTake? {
      TakenOnce(q, t);
    }
  }

  lemma {:induction false} RunInv<T>(q: Queue<T>, events: seq<Event<T>>, q': Queue<T>)
    requires Inv(q) && Run(q, events, q')
    ensures Inv(q') && Extends(q, q')
    decreases |events|
  {
    if events == [] {
    } else {
      var next := Next(q, events[0].t, events[0].a);
      StepInv(q, events[0].t, events[0].a);
      StepExtends(q, events[0].t, events[0].a);
      RunInv(next, events[1..], q');
      ExtendsTwice(q, next, q');
    }
  }

  lemma ExtendsTwice<T>(q: Queue<T>, q': Queue<T>, q'': Queue<T>)
    requires Extends(q, q') && Extends(q', q'')
    ensures Extends(q, q'')
  {
  }

  /**
    In every reachable state the cursors span at most one round, and each cell's sequence belongs to the cell or is
    one above.
   */
  lemma ReachableBounds<T>(size: nat, events: seq<Event<T>>, q: Queue<T>)
    requires size >= 2 && Run(Init(size), events, q)
    ensures Shaped(q) && q.size == size && q.dequeuePos <= q.enqueuePos <= q.dequeuePos + size
    ensures forall i: nat | i < q.size ::
              var s := q.cells[i].sequence; s % q.size == i || (s > 0 && (s - 1) % q.size == i)
  {
    InitInv<T>(size);
    RunInv(Init(size), events, q);
    forall i: nat | i < q.size
      ensures var s := q.cells[i].sequence; s % q.size == i || (s > 0 && (s - 1) % q.size == i)
    {
      assert CellInv(q, i);
    }
  }

  /** The contents of the bounded FIFO the queue stands for: tickets won but not yet dequeued. */
  function Contents<T>(q: Queue<T>): seq<T>
    requires |q.claimed| == q.enqueuePos && q.dequeuePos <= q.enqueuePos
  {
    q.claimed[q.dequeuePos..]
  }

  /** The abstract effect of one step of thread t. */
  datatype Effect<T> = Stutter | Push(v: T) | Pop(v: T)

  function EffectOf<T>(q: Queue<T>, t: Tid, a: Action<T>): Effect<T>
    requires Inv(q)
  {
    match PcOf(q, t)
    case EnqCas(v, pos) => if a.Advance? && pos == q.enqueuePos then Push(v) else Stutter
    case DeqCas(pos) =>
      if a.Advance? && pos == q.dequeuePos && Contents(q) != [] then Pop(Contents(q)[0]) else Stutter
    case _ => Stutter
  }

  /** A bounded FIFO of capacity n. */
  ghost predicate FifoStep<T>(n: nat, before: seq<T>, e: Effect<T>, after: seq<T>) {
    match e
    case Stutter => after == before
    case Push(v) => |before| < n && after == before + [v]
    case Pop(v) => before == [v] + after
  }

  /** Each step is a step of a bounded FIFO, which acts only at the successful compare-exchanges. */
  lemma StepRefinesFifo<T>(q: Queue<T>, t: Tid, a: Action<T>)
    requires Inv(q) && Enabled(q, t, a)
    ensures Inv(Next(q, t, a)) && |Contents(q)| <= q.size
    ensures FifoStep(q.size, Contents(q), EffectOf(q, t, a), Contents(Next(q, t, a)))
    // the ticket won is the position in the FIFO order, and only the winner gets it
    ensures EffectOf(q, t, a).Push? ==> PcOf(Next(q, t, a), t) == EnqStore(EffectOf(q, t, a).v, q.enqueuePos)
    ensures EffectOf(q, t, a).Pop? ==>
              PcOf(Next(q, t, a), t) == DeqTake(q.dequeuePos) && q.claimed[q.dequeuePos] == EffectOf(q, t, a).v
    ensures q.claimed <= Next(q, t, a).claimed && q.producer <= Next(q, t, a).producer
    ensures q.consumer <= Next(q, t, a).consumer
  {
    StepInv(q, t, a);
    var pc := PcOf(q, t);
    if a.Advance? && pc.EnqCas? && pc.pos == q.enqueuePos {
      EnqCasFresh(q, t);
    } else if a.Advance? && pc.DeqCas? && pc.pos == q.dequeuePos {
      DeqCasFresh(q, t);
    }
  }

  /** The thread is inside enqueue() and has no ticket yet. */
  predicate Waiting<T>(pc: Pc<T>) {
    pc.EnqLoadCursor? || pc.EnqLoadSeq? || pc.EnqCas? || pc.EnqFull?
  }

  predicate Enqueuing<T>(pc: Pc<T>) {
    Waiting(pc) || pc.EnqStore? || pc.EnqPublish? || pc.EnqDone?
  }

  /** The thread is inside dequeue() and has won a ticket. */
  predicate Taking<T>(pc: Pc<T>) {
    pc.DeqTake? || pc.DeqRelease? || pc.DeqDone?
  }

  ghost predicate OnlyThreadMoved<T>(q: Queue<T>, t: Tid, q': Queue<T>) {
    forall u: Tid | u != t :: PcOf(q', u) == PcOf(q, u)
  }

  /** All that a client sees of an instruction of enqueue(). */
  ghost predicate ProducerMove<T>(q: Queue<T>, t: Tid, q': Queue<T>) {
    var pc, pc' := PcOf(q, t), PcOf(q', t);
    && Enqueuing(pc) && Enqueuing(pc') && pc'.v == pc.v
    && OnlyThreadMoved(q, t, q') && q'.dequeuePos == q.dequeuePos
    && if Waiting(pc) && !Waiting(pc')
       then q'.claimed == q.claimed + [pc.v] && q'.producer == q.producer + [t]
       else Waiting(pc) == Waiting(pc') && q'.claimed == q.claimed && q'.producer == q.producer
  }

  /** All that a client sees of an instruction of dequeue(). */
  ghost predicate ConsumerMove<T>(q: Queue<T>, t: Tid, q': Queue<T>) {
    var pc, pc' := PcOf(q, t), PcOf(q', t);
    && !Enqueuing(pc) && !Enqueuing(pc') && !pc.Idle? && !pc'.Idle?
    && OnlyThreadMoved(q, t, q') && q'.claimed == q.claimed && q'.producer == q.producer
    && if Taking(pc) then Taking(pc') && pc'.pos == pc.pos && q'.dequeuePos == q.dequeuePos
       else if Taking(pc') then pc'.pos == q.dequeuePos && q'.dequeuePos == q.dequeuePos + 1
       else q'.dequeuePos == q.dequeuePos
  }

  lemma StepIsMove<T>(q: Queue<T>, t: Tid, a: Action<T>)
    requires Inv(q) && Enabled(q, t, a) && (a.Advance? || a.SpuriousFailure?)
    ensures Inv(Next(q, t, a))
    ensures if Enqueuing(PcOf(q, t)) then ProducerMove(q, t, Next(q, t, a)) else ConsumerMove(q, t, Next(q, t, a))
  {
    StepInv(q, t, a);
    if Enqueuing(PcOf(q, t)) {
      ProducerStepIsMove(q, t, a);
    } else {
      if PcOf(q, t).DeqTake? { TakenOnce(q, t); }
      ConsumerStepIsMove(q, t, a);
    }
  }

  lemma ProducerStepIsMove<T>(q: Queue<T>, t: Tid, a: Action<T>)
    requires Shaped(q) && Enabled(q, t, a) && (a.Advance? || a.SpuriousFailure?) && Enqueuing(PcOf(q, t))
    ensures ProducerMove(q, t, Next(q, t, a))
  {
  }

  lemma ConsumerStepIsMove<T>(q: Queue<T>, t: Tid, a: Action<T>)
    requires Shaped(q) && Enabled(q, t, a) && (a.Advance? || a.SpuriousFailure?) && !Enqueuing(PcOf(q, t))
    requires PcOf(q, t).DeqTake? ==> DataAt(q, PcOf(q, t).pos).Some?
    ensures ConsumerMove(q, t, Next(q, t, a))
  {
  }

  /** The value a consumer returns for its ticket is the one stored under that ticket, and no one took it before. */
  lemma TakenOnce<T>(q: Queue<T>, t: Tid)
    requires Inv(q) && PcOf(q, t).DeqTake?
    ensures var p := PcOf(q, t).pos;
            && p !in q.taken
            && Published(q, p)
            && DataAt(q, p) == Some(q.claimed[p])
            && Next(q, t, Advance).taken == q.taken[p := q.claimed[p]]
            && PcOf(Next(q, t, Advance), t) == DeqRelease(p, q.claimed[p])
  {
    assert ThreadInv(q, t);
    TakerSeesTicket(q, t);
  }

  /** A dequeue() that returns a value returns the value of the ticket it alone won. */
  lemma ReturnedValue<T>(q: Queue<T>, t: Tid, u: Tid)
    requires Inv(q) && PcOf(q, t).DeqDone?
    ensures var pc := PcOf(q, t);
            pc.pos < q.dequeuePos && pc.v == q.claimed[pc.pos] && pc.pos in q.taken && q.taken[pc.pos] == pc.v
    ensures PcOf(q, u).DeqDone? && PcOf(q, u).pos == PcOf(q, t).pos ==> u == t
  {
    assert ThreadInv(q, t) && ThreadInv(q, u) && TicketInv(q, PcOf(q, t).pos);
  }

  /**
    enqueue() reports a full queue only if its ticket is the next one and the cell's previous ticket is not released.
   */
  lemma FullIsJustified<T>(q: Queue<T>, t: Tid)
    requires Inv(q) && PcOf(q, t).EnqLoadSeq?
    ensures PcOf(Next(q, t, Advance), t).EnqFull? <==> SeqAt(q, PcOf(q, t).pos) < PcOf(q, t).pos
    ensures PcOf(Next(q, t, Advance), t).EnqFull? ==>
              var pos := PcOf(q, t).pos;
              pos == q.enqueuePos && pos >= q.size && !Released(q, pos - q.size)
  {
    assert ThreadInv(q, t);
    var pos, n := PcOf(q, t).pos, q.size;
    var s := SeqAt(q, pos);
    if s < pos {
      assert CellInv(q, pos % n);
      if Free(q, pos % n, s) {
        Modular.Apart(s, pos, n);
        Modular.NextRound(pos - n, n);
      } else {
        Modular.Apart(s - 1, pos, n);
        Modular.NextRound(pos - n, n);
      }
    }
  }

  /** dequeue() reports an empty queue only if its ticket is the next one and that ticket is not published. */
  lemma EmptyIsJustified<T>(q: Queue<T>, t: Tid)
    requires Inv(q) && PcOf(q, t).DeqLoadSeq?
    ensures PcOf(Next(q, t, Advance), t).DeqEmpty? <==> SeqAt(q, PcOf(q, t).pos) <= PcOf(q, t).pos
    ensures PcOf(Next(q, t, Advance), t).DeqEmpty? ==>
              PcOf(q, t).pos == q.dequeuePos && !Published(q, q.dequeuePos)
  {
    assert ThreadInv(q, t);
    var pos, n := PcOf(q, t).pos, q.size;
    var s := SeqAt(q, pos);
    if s <= pos {
      assert CellInv(q, pos % n);
      if Free(q, pos % n, s) {
        if s < pos { Modular.Apart(s, pos, n); }
      } else {
        Modular.Apart(s - 1, pos, n);
      }
    }
  }

  ghost predicate Quiescent<T>(q: Queue<T>) {
    forall t: Tid :: !Holding(PcOf(q, t))
  }

  /** With no thread inside the protocol, a ticket that was won and not dequeued is in its cell. */
  lemma QuietCarries<T>(q: Queue<T>, p: nat)
    requires Inv(q) && Quiescent(q) && q.dequeuePos <= p < q.enqueuePos
    ensures SeqAt(q, p) == p + 1 && DataAt(q, p) == Some(q.claimed[p])
  {
    var n := q.size;
    assert TicketInv(q, p) && CellInv(q, p % n);
    var s := SeqAt(q, p);
    if Free(q, p % n, s) {
      Modular.Apart(p, s, n);
    } else if s - 1 > p {
      Modular.Apart(p, s - 1, n);
    }
  }

  /** And every other cell is free. */
  lemma QuietFree<T>(q: Queue<T>, p: nat)
    requires Inv(q) && Quiescent(q) && q.enqueuePos <= p < q.dequeuePos + q.size
    ensures SeqAt(q, p) == p
  {
    var n := q.size;
    if p >= n {
      Modular.NextRound(p - n, n);
      assert TicketInv(q, p - n);
    }
    assert CellInv(q, p % n);
    var s := SeqAt(q, p);
    if Free(q, p % n, s) {
      if s < p { Modular.Apart(s, p, n); }
      if s > p { Modular.Apart(p, s, n); }
    } else {
      Modular.Apart(s - 1, p, n);
    }
  }

  lemma QuietTaken<T>(q: Queue<T>)
    requires Inv(q) && Quiescent(q)
    ensures q.taken == map p: nat | p < q.dequeuePos :: q.claimed[p]
  {
    forall p: nat ensures p < q.dequeuePos ==> p in q.taken && q.taken[p] == q.claimed[p] {
      assert TicketInv(q, p);
    }
    forall p: nat ensures p in q.taken ==> p < q.dequeuePos {
      assert TicketInv(q, p);
    }
  }

  /**
    After any run, once no thread is inside the protocol: the values taken are exactly the first
    dequeuePos values stored, in ticket order, and the remaining ones sit in their cells.
   */
  lemma NothingLostOrDuplicated<T>(size: nat, events: seq<Event<T>>, q: Queue<T>)
    requires size >= 2 && Run(Init(size), events, q) && Quiescent(q)
    ensures Inv(q) && q.size == size
    ensures q.taken == map p: nat | p < q.dequeuePos :: q.claimed[p]
    ensures forall p: nat | q.dequeuePos <= p < q.enqueuePos ::
              SeqAt(q, p) == p + 1 && DataAt(q, p) == Some(q.claimed[p])
    ensures forall p: nat | q.enqueuePos <= p < q.dequeuePos + q.size :: SeqAt(q, p) == p
  {
    InitInv<T>(size);
    RunInv(Init(size), events, q);
    QuietTaken(q);
    forall p: nat | q.dequeuePos <= p < q.enqueuePos
      ensures SeqAt(q, p) == p + 1 && DataAt(q, p) == Some(q.claimed[p])
    {
      QuietCarries(q, p);
    }
    forall p: nat | q.enqueuePos <= p < q.dequeuePos + q.size ensures SeqAt(q, p) == p {
      QuietFree(q, p);
    }
  }

  /** A consumer has won ticket p and not yet handed its cell back. */
  ghost predicate Emptying<T>(pc: Pc<T>, p: nat) {
    (pc.DeqTake? || pc.DeqRelease?) && pc.pos == p
  }

  /**
    In any state, enqueue() fails on the current ticket if and only if all cells are in use or its cell is being
    emptied.
   */
  lemma FullIff<T>(q: Queue<T>, t: Tid)
    requires Inv(q) && PcOf(q, t).EnqLoadSeq? && PcOf(q, t).pos == q.enqueuePos
    ensures var last := q.enqueuePos - q.size;
            PcOf(Next(q, t, Advance), t).EnqFull? <==>
            |Contents(q)| == q.size || (0 <= last < q.dequeuePos && Emptying(PcOf(q, q.consumer[last]), last))
  {
    var pos, n := q.enqueuePos, q.size;
    FullIsJustified(q, t);
    if pos >= n {
      var last := pos - n;
      Modular.NextRound(last, n);
      assert TicketInv(q, last) && CellInv(q, pos % n);
      if last < q.dequeuePos && Emptying(PcOf(q, q.consumer[last]), last) {
        assert ThreadInv(q, q.consumer[last]);
      } else if last == q.dequeuePos {
        LastRound(q, pos);
      }
    }
  }

  /** In a full queue the cell of the next ticket belongs to the round before. */
  lemma LastRound<T>(q: Queue<T>, pos: nat)
    requires Inv(q) && pos == q.enqueuePos == q.dequeuePos + q.size
    ensures SeqAt(q, pos) < pos
  {
    var n, s := q.size, SeqAt(q, pos);
    assert CellInv(q, pos % n);
    if !Free(q, pos % n, s) { Modular.Apart(s - 1, pos, n); }
  }

  /**
    In any state, dequeue() fails on the current ticket if and only if the queue is empty or that ticket is being
    stored.
   */
  lemma EmptyIff<T>(q: Queue<T>, t: Tid)
    requires Inv(q) && PcOf(q, t).DeqLoadSeq? && PcOf(q, t).pos == q.dequeuePos
    ensures PcOf(Next(q, t, Advance), t).DeqEmpty? <==>
            Contents(q) == [] || Storing(PcOf(q, q.producer[q.dequeuePos]), q.dequeuePos)
  {
    var pos, n := q.dequeuePos, q.size;
    EmptyIsJustified(q, t);
    assert TicketInv(q, pos) && CellInv(q, pos % n);
    if pos == q.enqueuePos {
      NextIsFree(q, pos);
    } else if Storing(PcOf(q, q.producer[pos]), pos) {
      assert ThreadInv(q, q.producer[pos]);
    }
  }

  lemma NextIsFree<T>(q: Queue<T>, pos: nat)
    requires Inv(q) && pos == q.dequeuePos == q.enqueuePos
    ensures SeqAt(q, pos) <= pos
  {
    var n, s := q.size, SeqAt(q, pos);
    assert CellInv(q, pos % n);
    if Free(q, pos % n, s) && s > pos { Modular.Apart(pos, s, n); }
  }

  /** With no thread inside the protocol, enqueue() fails on the current ticket if and only if all cells are in use. */
  lemma FullWhenQuiet<T>(size: nat, events: seq<Event<T>>, q: Queue<T>, t: Tid)
    requires size >= 2 && Run(Init(size), events, q) && Quiescent(q)
    requires PcOf(q, t).EnqLoadSeq? && PcOf(q, t).pos == q.enqueuePos
    ensures Inv(q) && (PcOf(Next(q, t, Advance), t).EnqFull? <==> |Contents(q)| == size)
  {
    NothingLostOrDuplicated(size, events, q);
    if q.enqueuePos == q.dequeuePos + size {
      Modular.NextRound(q.dequeuePos, size);
      assert SeqAt(q, q.dequeuePos) == q.dequeuePos + 1;
    } else {
      assert SeqAt(q, q.enqueuePos) == q.enqueuePos;
    }
  }

  /** And dequeue() fails on the current ticket if and only if the queue is empty. */
  lemma EmptyWhenQuiet<T>(size: nat, events: seq<Event<T>>, q: Queue<T>, t: Tid)
    requires size >= 2 && Run(Init(size), events, q) && Quiescent(q)
    requires PcOf(q, t).DeqLoadSeq? && PcOf(q, t).pos == q.dequeuePos
    ensures Inv(q) && (PcOf(Next(q, t, Advance), t).DeqEmpty? <==> Contents(q) == [])
  {
    NothingLostOrDuplicated(size, events, q);
    assert q.enqueuePos == q.dequeuePos ==> SeqAt(q, q.dequeuePos) == q.dequeuePos;
    assert q.enqueuePos > q.dequeuePos ==> SeqAt(q, q.dequeuePos) == q.dequeuePos + 1;
  }
}
