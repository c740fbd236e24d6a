/**
  The asynchronous logger: producers push messages into the MPMC queue, one worker
  thread drains it into the sinks, and the destructor pushes a terminate message and
  joins the worker.

  The whole logger is a transition system over the queue's own steps, so a message can
  be delayed at any instruction of enqueue() or dequeue().
 */
module AsyncLog {
  import opened Wrappers
  import Mpmc = MpmcQueue

  // ------------------------------------------------------------------ messages

  datatype LogMsg = LogMsg(loggerName: string, level: nat, time: int, threadId: nat, raw: string, formatted: string)

  datatype Kind = Log | Flush | Terminate

  datatype AsyncMsg = AsyncMsg(loggerName: string, level: nat, time: int, threadId: nat, txt: string, kind: Kind)

  function FromLogMsg(m: LogMsg): AsyncMsg {
    AsyncMsg(m.loggerName, m.level, m.time, m.threadId, m.raw, Log)
  }

  /** Move assignment, used once into the cell and once out of it, carries every member. */
  function MoveAssign(target: AsyncMsg, source: AsyncMsg): AsyncMsg {
    target.(loggerName := source.loggerName, level := source.level, time := source.time,
            threadId := source.threadId, txt := source.txt, kind := source.kind)
  }

  const LEVEL_OFF := 9

  function Clear(m: LogMsg): LogMsg {
    m.(level := LEVEL_OFF, raw := "", formatted := "")
  }

  /** fill_log_msg: clears the target and copies the members back. */
  function FillLogMsg(a: AsyncMsg, m: LogMsg): LogMsg {
    Clear(m).(loggerName := a.loggerName, level := a.level, time := a.time, threadId := a.threadId, raw := a.txt)
  }

  // ------------------------------------------------------------------ worker

  /** The text a formatter appends to the message. */
  type Formatter = LogMsg -> string

  datatype SinkEvent = Logged(text: string) | Flushed

  datatype Worker = Worker(flushRequested: bool, terminateRequested: bool, active: bool, sinks: seq<seq<SinkEvent>>)

  const FRESH_LOG_MSG := LogMsg("", LEVEL_OFF, 0, 0, "", "")

  /** What every sink receives for one dequeued log message. */
  function Rendered(fmt: Formatter, a: AsyncMsg): string {
    var m := FillLogMsg(a, FRESH_LOG_MSG);
    m.formatted + fmt(m)
  }

  function Broadcast(sinks: seq<seq<SinkEvent>>, e: SinkEvent): seq<seq<SinkEvent>> {
    seq(|sinks|, i requires 0 <= i < |sinks| => sinks[i] + [e])
  }

  /** process_next_msg; flushDue says that the periodic flush interval has passed. */
  function ProcessNext(w: Worker, fmt: Formatter, incoming: Option<AsyncMsg>, flushDue: bool): Worker {
    match incoming
    case Some(a) =>
      (match a.kind
       case Flush => w.(flushRequested := true)
       case Terminate => w.(flushRequested := true, terminateRequested := true)
       case Log => w.(sinks := Broadcast(w.sinks, Logged(Rendered(fmt, a)))))
    case None =>
      var w' := if w.flushRequested || flushDue
                then w.(sinks := Broadcast(w.sinks, Flushed), flushRequested := false) else w;
      w'.(active := !w.terminateRequested)
  }

  /** The worker's side of async_log_helper with its fields updated in place. */
  class AsyncLogHelper {
    const formatter: Formatter
    var sinks: seq<seq<SinkEvent>>
    var flushRequested: bool
    var terminateRequested: bool

    function View(active: bool): Worker
      reads this
    {
      Worker(flushRequested, terminateRequested, active, sinks)
    }

    constructor (fmt: Formatter, sinkCount: nat)
      ensures formatter == fmt
      ensures View(true) == Worker(false, false, true, seq(sinkCount, i => []))
    {
      formatter := fmt;
      sinks := seq(sinkCount, i => []);
      flushRequested, terminateRequested := false, false;
    }

    method ToEverySink(e: SinkEvent)
      modifies this`sinks
      ensures sinks == Broadcast(old(sinks), e)
    {
      var i := 0;
      while i < |sinks|
        invariant i <= |sinks| == |old(sinks)|
        invariant forall j | 0 <= j < i :: sinks[j] == old(sinks)[j] + [e]
        invariant forall j | i <= j < |sinks| :: sinks[j] == old(sinks)[j]
      {
        sinks := sinks[i := sinks[i] + [e]];
        i := i + 1;
      }
    }

    method HandleFlushInterval(flushDue: bool)
      modifies this`sinks, this`flushRequested
      ensures if old(flushRequested) || flushDue
              then sinks == Broadcast(old(sinks), Flushed) && !flushRequested
              else sinks == old(sinks) && flushRequested == old(flushRequested)
    {
      if flushRequested || flushDue {
        ToEverySink(Flushed);
        flushRequested := false;
      }
    }

    method ProcessNextMsg(incoming: Option<AsyncMsg>, flushDue: bool) returns (active: bool)
      modifies this
      ensures View(active) == ProcessNext(old(View(true)), formatter, incoming, flushDue)
    {
      match incoming {
        case Some(a) =>
          match a.kind {
            case Flush => flushRequested := true;
            case Terminate => flushRequested := true; terminateRequested := true;
            case Log =>
              var m := FillLogMsg(a, FRESH_LOG_MSG);
              m := m.(formatted := m.formatted + formatter(m));
              ToEverySink(Logged(m.formatted));
          }
          active := true;
        case None =>
          HandleFlushInterval(flushDue);
          active := !terminateRequested;
      }
    }
  }

  // ------------------------------------------------------------------ the system

  const WORKER: Mpmc.Tid := 0
  const DESTRUCTOR: Mpmc.Tid := 1

  datatype Policy = BlockRetry | DiscardLogMsg

  datatype Config = Config(fmt: Formatter, policy: Policy, sinkCount: nat)

  /** handled and pushed are history: messages processed so far, and the push_msg() calls of each thread. */
  datatype System = System(
    q: Mpmc.Queue<AsyncMsg>,
    worker: Worker,
    destroying: bool,
    joined: bool,
    handled: nat,
    pushed: map<Mpmc.Tid, seq<AsyncMsg>>)

  datatype Action =
    | Push(t: Mpmc.Tid, msg: AsyncMsg)
    | QueueStep(t: Mpmc.Tid, spurious: bool)
    | PushReturns(t: Mpmc.Tid)
    | Destroy(msg: AsyncMsg)
    | WorkerPolls
    | WorkerHandles(flushDue: bool)
    | Join

  function Start(c: Config, queueSize: nat): System {
    System(Mpmc.Init(queueSize), Worker(false, false, true, seq(c.sinkCount, i => [])), false, false, 0, map[])
  }

  function PushedBy(s: System, t: Mpmc.Tid): seq<AsyncMsg> {
    if t in s.pushed then s.pushed[t] else []
  }

  ghost predicate Enabled(s: System, a: Action) {
    && Mpmc.Shaped(s.q)
    && !s.joined
    && match a
       case Push(t, msg) => t > DESTRUCTOR && !s.destroying && Mpmc.PcOf(s.q, t).Idle? && !msg.kind.Terminate?
       case QueueStep(t, spurious) => Mpmc.Enabled(s.q, t, if spurious then Mpmc.SpuriousFailure else Mpmc.Advance)
       case PushReturns(t) => Mpmc.PcOf(s.q, t).EnqDone? || Mpmc.PcOf(s.q, t).EnqFull?
       case Destroy(msg) =>
         // the caller of the destructor has waited for every producer to return
         !s.destroying && msg.kind.Terminate? && forall t | t >= DESTRUCTOR :: Mpmc.PcOf(s.q, t).Idle?
       case WorkerPolls => s.worker.active && Mpmc.PcOf(s.q, WORKER).Idle?
       case WorkerHandles(_) => Mpmc.PcOf(s.q, WORKER).DeqDone? || Mpmc.PcOf(s.q, WORKER).DeqEmpty?
       case Join => s.destroying && Mpmc.PcOf(s.q, DESTRUCTOR).Idle? && !s.worker.active
  }

  function Incoming(pc: Mpmc.Pc<AsyncMsg>): Option<AsyncMsg> {
    if pc.DeqDone? then Some(pc.v) else None
  }

  function Next(c: Config, s: System, a: Action): System
    requires Enabled(s, a)
  {
    match a
    case Push(t, msg) => BeginPush(s, t, msg)
    case Destroy(msg) => BeginPush(s, DESTRUCTOR, msg).(destroying := true)
    case QueueStep(t, spurious) =>
      s.(q := Mpmc.Next(s.q, t, if spurious then Mpmc.SpuriousFailure else Mpmc.Advance))
    case PushReturns(t) =>
      var pc := Mpmc.PcOf(s.q, t);
      var q' := Mpmc.Next(s.q, t, Mpmc.Return);
      if pc.EnqFull? && c.policy.BlockRetry? then s.(q := Mpmc.Next(q', t, Mpmc.CallEnqueue(pc.v)))
      else s.(q := q')
    case WorkerPolls => s.(q := Mpmc.Next(s.q, WORKER, Mpmc.CallDequeue))
    case WorkerHandles(flushDue) =>
      var incoming := Incoming(Mpmc.PcOf(s.q, WORKER));
      s.(q := Mpmc.Next(s.q, WORKER, Mpmc.Return),
         worker := ProcessNext(s.worker, c.fmt, incoming, flushDue),
         handled := if incoming.Some? then s.handled + 1 else s.handled)
    case Join => s.(joined := true)
  }

  function BeginPush(s: System, t: Mpmc.Tid, msg: AsyncMsg): System
    requires Mpmc.Shaped(s.q) && Mpmc.PcOf(s.q, t).Idle?
  {
    s.(q := Mpmc.Next(s.q, t, Mpmc.CallEnqueue(msg)), pushed := s.pushed[t := PushedBy(s, t) + [msg]])
  }

  // ------------------------------------------------------------------ the synchronous logger

  /** The log messages among the dequeued ones, as the worker hands them to the formatter. */
  function LogMessages(msgs: seq<AsyncMsg>): seq<LogMsg> {
    if msgs == [] then []
    else
      var last := msgs[|msgs| - 1];
      LogMessages(msgs[..|msgs| - 1]) + if last.kind.Log? then [FillLogMsg(last, FRESH_LOG_MSG)] else []
  }

  /** logger::_log_msg on one message after the other: what one sink receives. */
  function SyncOutput(fmt: Formatter, msgs: seq<LogMsg>): seq<string> {
    if msgs == [] then []
    else
      var last := msgs[|msgs| - 1];
      SyncOutput(fmt, msgs[..|msgs| - 1]) + [last.formatted + fmt(last)]
  }

  function LogTexts(events: seq<SinkEvent>): seq<string> {
    if events == [] then []
    else
      var last := events[|events| - 1];
      LogTexts(events[..|events| - 1]) + if last.Logged? then [last.text] else []
  }

  lemma LogTextsAppend(events: seq<SinkEvent>, e: SinkEvent)
    ensures LogTexts(events + [e]) == LogTexts(events) + if e.Logged? then [e.text] else []
  {
    assert (events + [e])[..|events|] == events;
  }

  lemma LogMessagesAppend(msgs: seq<AsyncMsg>, a: AsyncMsg)
    ensures LogMessages(msgs + [a]) == LogMessages(msgs) + if a.kind.Log? then [FillLogMsg(a, FRESH_LOG_MSG)] else []
  {
    assert (msgs + [a])[..|msgs|] == msgs;
  }

  lemma SyncOutputAppend(fmt: Formatter, msgs: seq<LogMsg>, m: LogMsg)
    ensures SyncOutput(fmt, msgs + [m]) == SyncOutput(fmt, msgs) + [m.formatted + fmt(m)]
  {
    assert (msgs + [m])[..|msgs|] == msgs;
  }

  /** The sequence of messages that thread t got a ticket for. */
  function ClaimsBy(claimed: seq<AsyncMsg>, producer: seq<Mpmc.Tid>, t: Mpmc.Tid): seq<AsyncMsg>
    requires |claimed| == |producer|
  {
    if claimed == [] then []
    else
      var n := |claimed| - 1;
      ClaimsBy(claimed[..n], producer[..n], t) + if producer[n] == t then [claimed[n]] else []
  }

  lemma ClaimsAppend(claimed: seq<AsyncMsg>, producer: seq<Mpmc.Tid>, v: AsyncMsg, u: Mpmc.Tid, t: Mpmc.Tid)
    requires |claimed| == |producer|
    ensures ClaimsBy(claimed + [v], producer + [u], t) ==
            ClaimsBy(claimed, producer, t) + if u == t then [v] else []
  {
    assert (claimed + [v])[..|claimed|] == claimed;
    assert (producer + [u])[..|producer|] == producer;
  }

  // ------------------------------------------------------------------ invariant

  function InHand(pc: Mpmc.Pc<AsyncMsg>): seq<AsyncMsg> {
    if Mpmc.Waiting(pc) then [pc.v] else []
  }

  /** The worker is the only consumer, and its tickets run one by one. */
  ghost predicate WorkerThreadInv(s: System) {
    var pc := Mpmc.PcOf(s.q, WORKER);
    && !Mpmc.Enqueuing(pc)
    && (if Mpmc.Taking(pc) then pc.pos == s.handled && s.q.dequeuePos == s.handled + 1
        else s.q.dequeuePos == s.handled)
    && (!s.worker.active ==> pc.Idle?)
  }

  ghost predicate PusherInv(c: Config, s: System, t: Mpmc.Tid)
    requires |s.q.claimed| == |s.q.producer|
  {
    var pc := Mpmc.PcOf(s.q, t);
    && (pc.Idle? || Mpmc.Enqueuing(pc))
    && (Mpmc.Enqueuing(pc) ==> (pc.v.kind.Terminate? <==> t == DESTRUCTOR) && (s.destroying <==> t == DESTRUCTOR))
    && (c.policy.BlockRetry? ==> PushedBy(s, t) == ClaimsBy(s.q.claimed, s.q.producer, t) + InHand(pc))
  }

  ghost predicate PushersInv(c: Config, s: System)
    requires |s.q.claimed| == |s.q.producer|
  {
    forall t: Mpmc.Tid | t != WORKER :: PusherInv(c, s, t)
  }

  /** A terminate message holds the last ticket there will ever be. */
  ghost predicate TerminateIsLast(s: System) {
    forall p: nat | p < |s.q.claimed| && s.q.claimed[p].kind.Terminate? ::
      p == |s.q.claimed| - 1 && s.destroying && !Mpmc.Waiting(Mpmc.PcOf(s.q, DESTRUCTOR))
  }

  ghost predicate EndsFlushed(events: seq<SinkEvent>) {
    events != [] && events[|events| - 1] == Flushed
  }

  ghost predicate OutputInv(c: Config, w: Worker, done: seq<AsyncMsg>) {
    && |w.sinks| == c.sinkCount
    && (forall i | 0 <= i < |w.sinks| :: LogTexts(w.sinks[i]) == SyncOutput(c.fmt, LogMessages(done)))
    && (w.terminateRequested <==> done != [] && done[|done| - 1].kind.Terminate?)
    && (w.terminateRequested && w.active ==> w.flushRequested)
    && (!w.active ==> w.terminateRequested)
    && (!w.active ==> forall i | 0 <= i < |w.sinks| :: EndsFlushed(w.sinks[i]))
  }

  /** What the logger adds to the queue's own invariant. */
  ghost predicate ClientInv(c: Config, s: System) {
    && s.handled <= |s.q.claimed| == |s.q.producer|
    && WorkerThreadInv(s)
    && PushersInv(c, s)
    && TerminateIsLast(s)
    && OutputInv(c, s.worker, s.q.claimed[..s.handled])
    && (s.joined ==> s.destroying && !s.worker.active && Mpmc.PcOf(s.q, DESTRUCTOR).Idle?)
  }

  ghost predicate SystemInv(c: Config, s: System) {
    Mpmc.Inv(s.q) && ClientInv(c, s)
  }

  lemma StartInv(c: Config, queueSize: nat)
    requires queueSize >= 2
    ensures SystemInv(c, Start(c, queueSize))
  {
    Mpmc.InitInv<AsyncMsg>(queueSize);
    var s := Start(c, queueSize);
    forall t ensures Mpmc.PcOf(s.q, t).Idle? {
    }
  }

  /** Entering push_msg(). */
  lemma PushClient(c: Config, s: System, a: Action)
    requires ClientInv(c, s) && Enabled(s, a) && (a.Push? || a.Destroy?)
    ensures ClientInv(c, Next(c, s, a))
  {
    var s' := Next(c, s, a);
    forall u: Mpmc.Tid | u != WORKER ensures PusherInv(c, s', u) {
      assert PusherInv(c, s, u);
    }
  }

  /** Retrying in push_msg(), or leaving it. */
  lemma PushReturnsClient(c: Config, s: System, t: Mpmc.Tid)
    requires ClientInv(c, s) && Enabled(s, PushReturns(t))
    ensures ClientInv(c, Next(c, s, PushReturns(t)))
  {
    assert t != WORKER && PusherInv(c, s, t);
    var pc := Mpmc.PcOf(s.q, t);
    if pc.EnqFull? && c.policy.BlockRetry? {
      Retried(c, s, t);
      PusherMoved(c, s, t, Mpmc.EnqLoadCursor(pc.v));
    } else {
      PusherMoved(c, s, t, Mpmc.Idle);
    }
  }

  lemma Retried(c: Config, s: System, t: Mpmc.Tid)
    requires Enabled(s, PushReturns(t)) && Mpmc.PcOf(s.q, t).EnqFull? && c.policy.BlockRetry?
    ensures Next(c, s, PushReturns(t)) == s.(q := Mpmc.Goto(s.q, t, Mpmc.EnqLoadCursor(Mpmc.PcOf(s.q, t).v)))
  {
    var again := Mpmc.EnqLoadCursor(Mpmc.PcOf(s.q, t).v);
    assert s.q.threads[t := Mpmc.Idle][t := again] == s.q.threads[t := again];
  }

  /** A producer goes on without getting a ticket. */
  lemma PusherMoved(c: Config, s: System, t: Mpmc.Tid, pc: Mpmc.Pc<AsyncMsg>)
    requires ClientInv(c, s) && !s.joined && t != WORKER
    requires PusherInv(c, s.(q := Mpmc.Goto(s.q, t, pc)), t)
    requires Mpmc.Waiting(pc) ==> Mpmc.Waiting(Mpmc.PcOf(s.q, t))
    ensures ClientInv(c, s.(q := Mpmc.Goto(s.q, t, pc)))
  {
    var s' := s.(q := Mpmc.Goto(s.q, t, pc));
    forall u: Mpmc.Tid | u != WORKER ensures PusherInv(c, s', u) {
      assert PusherInv(c, s, u);
    }
    assert Mpmc.Waiting(Mpmc.PcOf(s'.q, DESTRUCTOR)) ==> Mpmc.Waiting(Mpmc.PcOf(s.q, DESTRUCTOR));
  }

  lemma PushStep(c: Config, s: System, a: Action)
    requires SystemInv(c, s) && Enabled(s, a) && (a.Push? || a.Destroy? || a.PushReturns?)
    ensures SystemInv(c, Next(c, s, a))
  {
    var t := if a.Destroy? then DESTRUCTOR else a.t;
    if a.PushReturns? {
      PushReturnsClient(c, s, t);
      Mpmc.StepInv(s.q, t, Mpmc.Return);
      if Mpmc.PcOf(s.q, t).EnqFull? {
        Mpmc.StepInv(Mpmc.Next(s.q, t, Mpmc.Return), t, Mpmc.CallEnqueue(Mpmc.PcOf(s.q, t).v));
      }
    } else {
      PushClient(c, s, a);
      Mpmc.StepInv(s.q, t, Mpmc.CallEnqueue(a.msg));
    }
  }

  lemma ProducerMoveClient(c: Config, s: System, t: Mpmc.Tid, s': System)
    requires ClientInv(c, s) && !s.joined && s' == s.(q := s'.q) && Mpmc.ProducerMove(s.q, t, s'.q)
    ensures ClientInv(c, s')
  {
    var pc := Mpmc.PcOf(s.q, t);
    assert t != WORKER && PusherInv(c, s, t);
    assert s'.q.claimed[..s.handled] == s.q.claimed[..s.handled];
    forall u: Mpmc.Tid | u != WORKER ensures PusherInv(c, s', u) {
      assert PusherInv(c, s, u);
      ClaimsAppend(s.q.claimed, s.q.producer, pc.v, t, u);
    }
    assert PusherInv(c, s, DESTRUCTOR);
  }

  lemma ConsumerMoveClient(c: Config, s: System, t: Mpmc.Tid, s': System)
    requires ClientInv(c, s) && !s.joined && s' == s.(q := s'.q) && Mpmc.ConsumerMove(s.q, t, s'.q)
    ensures ClientInv(c, s')
  {
    assert t != WORKER ==> PusherInv(c, s, t);
    forall u: Mpmc.Tid | u != WORKER ensures PusherInv(c, s', u) {
      assert PusherInv(c, s, u);
    }
  }

  /** Polling the queue, and handling what dequeue() returned. */
  lemma WorkerClient(c: Config, s: System, a: Action)
    requires ClientInv(c, s) && Enabled(s, a) && (a.WorkerPolls? || a.WorkerHandles?)
    requires var pc := Mpmc.PcOf(s.q, WORKER);
             pc.DeqDone? ==> s.handled < |s.q.claimed| && pc.v == s.q.claimed[s.handled]
    ensures ClientInv(c, Next(c, s, a))
  {
    var s' := Next(c, s, a);
    var pc := Mpmc.PcOf(s.q, WORKER);
    if a.WorkerHandles? {
      if pc.DeqDone? {
        assert s.q.claimed[..s.handled + 1] == s.q.claimed[..s.handled] + [pc.v];
      }
      assert !s.worker.terminateRequested || pc.DeqEmpty?;
      OutputStep(c, s.worker, s.q.claimed[..s.handled], Incoming(pc), a.flushDue);
    }
    forall u: Mpmc.Tid | u != WORKER ensures PusherInv(c, s', u) {
      assert PusherInv(c, s, u);
    }
  }

  /** Handling one more message extends every sink as the synchronous logger would. */
  lemma OutputStep(c: Config, w: Worker, done: seq<AsyncMsg>, incoming: Option<AsyncMsg>, flushDue: bool)
    requires OutputInv(c, w, done) && w.active && (incoming.Some? ==> !w.terminateRequested)
    ensures OutputInv(c, ProcessNext(w, c.fmt, incoming, flushDue),
                      if incoming.Some? then done + [incoming.value] else done)
  {
    match incoming
    case Some(v) =>
      LogMessagesAppend(done, v);
      assert LogMessages(done) + [] == LogMessages(done);
      if v.kind.Log? {
        SyncOutputAppend(c.fmt, LogMessages(done), FillLogMsg(v, FRESH_LOG_MSG));
        forall i | 0 <= i < |w.sinks| {
          LogTextsAppend(w.sinks[i], Logged(Rendered(c.fmt, v)));
        }
      }
    case None =>
      forall i | 0 <= i < |w.sinks| {
        LogTextsAppend(w.sinks[i], Flushed);
      }
  }

  /** Every step of every thread keeps the invariant. */
  lemma SystemStepInv(c: Config, s: System, a: Action)
    requires SystemInv(c, s) && Enabled(s, a)
    ensures SystemInv(c, Next(c, s, a))
  {
    var s' := Next(c, s, a);
    match a
    case QueueStep(t, spurious) =>
      Mpmc.StepIsMove(s.q, t, if spurious then Mpmc.SpuriousFailure else Mpmc.Advance);
      if Mpmc.Enqueuing(Mpmc.PcOf(s.q, t)) { ProducerMoveClient(c, s, t, s'); }
      else { ConsumerMoveClient(c, s, t, s'); }
    case WorkerPolls =>
      WorkerClient(c, s, a);
      Mpmc.StepInv(s.q, WORKER, Mpmc.CallDequeue);
    case WorkerHandles(_) =>
      assert Mpmc.ThreadInv(s.q, WORKER);
      WorkerClient(c, s, a);
      Mpmc.StepInv(s.q, WORKER, Mpmc.Return);
    case Join => JoinClient(c, s);
    case _ => PushStep(c, s, a);
  }

  lemma JoinClient(c: Config, s: System)
    requires ClientInv(c, s) && Enabled(s, Join)
    ensures ClientInv(c, Next(c, s, Join))
  {
    forall u: Mpmc.Tid | u != WORKER ensures PusherInv(c, Next(c, s, Join), u) {
      assert PusherInv(c, s, u);
    }
  }

  ghost predicate Run(c: Config, s: System, actions: seq<Action>, s': System)
    decreases |actions|
  {
    if actions == [] then s == s'
    else Enabled(s, actions[0]) && Run(c, Next(c, s, actions[0]), actions[1..], s')
  }

  lemma {:induction false} RunInv(c: Config, s: System, actions: seq<Action>, s': System)
    requires SystemInv(c, s) && Run(c, s, actions, s')
    ensures SystemInv(c, s')
    decreases |actions|
  {
    if actions == [] {
    } else {
      SystemStepInv(c, s, actions[0]);
      RunInv(c, Next(c, s, actions[0]), actions[1..], s');
    }
  }

  /**
    After any run in which join() has returned: every sink has received exactly what the synchronous
    logger writes for the queued messages in ticket order, and was flushed after its last message.
    Under block_retry the tickets hold every push of every thread, in that thread's order.
   */
  lemma JoinedMeansDelivered(c: Config, queueSize: nat, actions: seq<Action>, s: System)
    requires queueSize >= 2 && Run(c, Start(c, queueSize), actions, s) && s.joined
    ensures Mpmc.Inv(s.q) && |s.worker.sinks| == c.sinkCount
    ensures forall i | 0 <= i < c.sinkCount ::
              && LogTexts(s.worker.sinks[i]) == SyncOutput(c.fmt, LogMessages(s.q.claimed))
              && EndsFlushed(s.worker.sinks[i])
    ensures c.policy.BlockRetry? ==>
              forall t | t != WORKER :: PushedBy(s, t) == ClaimsBy(s.q.claimed, s.q.producer, t)
  {
    StartInv(c, queueSize);
    RunInv(c, Start(c, queueSize), actions, s);
    JoinedClient(c, s);
  }

  lemma JoinedClient(c: Config, s: System)
    requires ClientInv(c, s) && s.joined
    ensures s.q.claimed[..s.handled] == s.q.claimed
    ensures forall t: Mpmc.Tid | t != WORKER && c.policy.BlockRetry? ::
              PushedBy(s, t) == ClaimsBy(s.q.claimed, s.q.producer, t)
  {
    assert s.handled == |s.q.claimed|;
    forall t: Mpmc.Tid | t != WORKER && c.policy.BlockRetry?
      ensures PushedBy(s, t) == ClaimsBy(s.q.claimed, s.q.producer, t)
    {
      assert PusherInv(c, s, t);
    }
  }

  /** A log message comes out of the queue as it went in, so the formatter sees what the synchronous logger's sees. */
  lemma MessageSurvivesQueue(m: LogMsg, cell: AsyncMsg, local: AsyncMsg)
    ensures var out := MoveAssign(local, MoveAssign(cell, FromLogMsg(m)));
            && out.kind.Log?
            && FillLogMsg(out, FRESH_LOG_MSG) == m.(formatted := "")
            && LogMessages([out]) == [m.(formatted := "")]
  {
    var out := MoveAssign(local, MoveAssign(cell, FromLogMsg(m)));
    LogMessagesAppend([], out);
    assert [] + [out] == [out];
  }

  /** The log messages among the queued ones, as they were queued. */
  function Logs(msgs: seq<AsyncMsg>): seq<AsyncMsg> {
    if msgs == [] then []
    else
      var last := msgs[|msgs| - 1];
      Logs(msgs[..|msgs| - 1]) + if last.kind.Log? then [last] else []
  }

  /** The messages as they were logged, and as the queue carries them. */
  function Carried(ms: seq<LogMsg>): seq<AsyncMsg> {
    seq(|ms|, i requires 0 <= i < |ms| => FromLogMsg(ms[i]))
  }

  function Unformatted(ms: seq<LogMsg>): seq<LogMsg> {
    seq(|ms|, i requires 0 <= i < |ms| => ms[i].(formatted := ""))
  }

  lemma {:induction false} LogsHandled(msgs: seq<AsyncMsg>)
    ensures |LogMessages(msgs)| == |Logs(msgs)|
    ensures forall i :: 0 <= i < |Logs(msgs)| ==> LogMessages(msgs)[i] == FillLogMsg(Logs(msgs)[i], FRESH_LOG_MSG)
  {
    if msgs == [] {
    } else {
      LogsHandled(msgs[..|msgs| - 1]);
    }
  }

  /** What is handled is what was logged, with nothing formatted yet. */
  lemma LoggedIsHandled(msgs: seq<AsyncMsg>, ms: seq<LogMsg>)
    requires Logs(msgs) == Carried(ms)
    ensures LogMessages(msgs) == Unformatted(ms)
  {
    LogsHandled(msgs);
    forall i | 0 <= i < |ms| ensures LogMessages(msgs)[i] == ms[i].(formatted := "") {
      assert Logs(msgs)[i] == FromLogMsg(ms[i]);
    }
  }

  /**
    When join() has returned, every sink holds what the synchronous logger writes for the messages logged, in ticket
    order.
   */
  lemma JoinedMeansLogged(c: Config, queueSize: nat, actions: seq<Action>, s: System, ms: seq<LogMsg>)
    requires queueSize >= 2 && Run(c, Start(c, queueSize), actions, s) && s.joined
    requires Logs(s.q.claimed) == Carried(ms)
    ensures |s.worker.sinks| == c.sinkCount
    ensures forall i | 0 <= i < c.sinkCount :: LogTexts(s.worker.sinks[i]) == SyncOutput(c.fmt, Unformatted(ms))
  {
    JoinedMeansDelivered(c, queueSize, actions, s);
    LoggedIsHandled(s.q.claimed, ms);
  }
}
