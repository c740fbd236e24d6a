/**
  Progress of the asynchronous logger: what a push that runs alone does under either policy, how the worker
  drains the queue, and that a destructor under block_retry can always be brought to return.
 */
module AsyncProgress {
  import opened Wrappers
  import opened AsyncLog
  import opened MpmcProgress
  import Mpmc = MpmcQueue

  ghost predicate Reaches(c: Config, s: System, s': System) {
    exists actions :: Run(c, s, actions, s')
  }

  lemma {:induction false} RunOn(c: Config, s: System, first: seq<Action>, s1: System, more: seq<Action>, s2: System)
    requires Run(c, s, first, s1) && Run(c, s1, more, s2)
    ensures Run(c, s, first + more, s2)
    decreases |first|
  {
    if first == [] {
      assert first + more == more;
    } else {
      RunOn(c, Next(c, s, first[0]), first[1..], s1, more, s2);
      assert (first + more)[1..] == first[1..] + more;
    }
  }

  lemma ReachesOn(c: Config, s: System, s1: System, s2: System)
    requires Reaches(c, s, s1) && Reaches(c, s1, s2)
    ensures Reaches(c, s, s2)
  {
    var first :| Run(c, s, first, s1);
    var more :| Run(c, s1, more, s2);
    RunOn(c, s, first, s1, more, s2);
  }

  lemma ReachesBy(c: Config, s: System, a: Action)
    requires SystemInv(c, s) && Enabled(s, a)
    ensures Reaches(c, s, Next(c, s, a)) && SystemInv(c, Next(c, s, a))
  {
    SystemStepInv(c, s, a);
    assert [a][1..] == [];
    assert Run(c, s, [a], Next(c, s, a));
  }

  lemma ReachesSelf(c: Config, s: System)
    ensures Reaches(c, s, s)
  {
    assert Run(c, s, [], s);
  }

  /** One thread goes on alone within the queue. */
  ghost function Left(s: System, t: Mpmc.Tid, n: nat): System
    requires Mpmc.Inv(s.q)
  {
    s.(q := Alone(s.q, t, n))
  }

  lemma OneStep(c: Config, s: System, t: Mpmc.Tid)
    requires SystemInv(c, s) && !s.joined && Mpmc.Enabled(s.q, t, Mpmc.Advance)
    ensures var s1 := s.(q := Mpmc.Next(s.q, t, Mpmc.Advance)); Reaches(c, s, s1) && SystemInv(c, s1)
  {
    assert Enabled(s, QueueStep(t, false));
    ReachesBy(c, s, QueueStep(t, false));
  }

  lemma {:induction false} LeftAlone(c: Config, s: System, t: Mpmc.Tid, n: nat)
    requires SystemInv(c, s) && !s.joined
    ensures Reaches(c, s, Left(s, t, n)) && SystemInv(c, Left(s, t, n))
    decreases n
  {
    if n == 0 || !Mpmc.Enabled(s.q, t, Mpmc.Advance) {
      ReachesSelf(c, s);
    } else {
      var s1 := s.(q := Mpmc.Next(s.q, t, Mpmc.Advance));
      OneStep(c, s, t);
      LeftAlone(c, s1, t, n - 1);
      ReachesOn(c, s, s1, Left(s1, t, n - 1));
    }
  }

  // ------------------------------------------------------------------ pushing

  /** push_msg() up to the first time that enqueue() returns. */
  ghost function Tried(c: Config, s: System, t: Mpmc.Tid, msg: AsyncMsg): System
    requires SystemInv(c, s) && Enabled(s, Push(t, msg))
  {
    SystemStepInv(c, s, Push(t, msg));
    Left(Next(c, s, Push(t, msg)), t, 6)
  }

  /** Nothing was taken from the queue, and no other thread went on. */
  ghost predicate SameButFor(s: System, t: Mpmc.Tid, s': System) {
    && s'.q.size == s.q.size && s'.q.dequeuePos == s.q.dequeuePos && s'.destroying == s.destroying
    && Mpmc.OnlyThreadMoved(s.q, t, s'.q)
  }

  lemma TriedOthers(c: Config, s: System, t: Mpmc.Tid, msg: AsyncMsg)
    requires SystemInv(c, s) && Enabled(s, Push(t, msg))
    ensures var s2 := Tried(c, s, t, msg); s2.q.size == s.q.size && Mpmc.OnlyThreadMoved(s.q, t, s2.q)
  {
    SystemStepInv(c, s, Push(t, msg));
    AloneOthers(Next(c, s, Push(t, msg)).q, t, 6);
  }

  lemma TriedOutcome(c: Config, s: System, t: Mpmc.Tid, msg: AsyncMsg)
    requires SystemInv(c, s) && Enabled(s, Push(t, msg))
    ensures var s2 := Tried(c, s, t, msg);
            && SystemInv(c, s2) && Reaches(c, s, s2) && s2.worker == s.worker && !s2.joined && SameButFor(s, t, s2)
            && if NoRoom(s.q) then Mpmc.PcOf(s2.q, t) == Mpmc.EnqFull(msg) && s2.q.claimed == s.q.claimed
               else Mpmc.PcOf(s2.q, t).EnqDone? && s2.q.claimed == s.q.claimed + [msg]
  {
    var s1 := Next(c, s, Push(t, msg));
    ReachesBy(c, s, Push(t, msg));
    SameConditions(s.q, t, Mpmc.EnqLoadCursor(msg));
    EnqueueAlone(s1.q, t, 6);
    LeftAlone(c, s1, t, 6);
    TriedOthers(c, s, t, msg);
    ReachesOn(c, s, s1, Left(s1, t, 6));
  }

  /** enqueue() has returned: push_msg() returns as well, or tries again. */
  lemma Returning(c: Config, s: System, t: Mpmc.Tid)
    requires Enabled(s, PushReturns(t))
    ensures var pc, s' := Mpmc.PcOf(s.q, t), Next(c, s, PushReturns(t));
            && s'.q.claimed == s.q.claimed && s'.worker == s.worker && SameButFor(s, t, s')
            && Mpmc.PcOf(s'.q, t) == (if pc.EnqFull? && c.policy.BlockRetry? then Mpmc.EnqLoadCursor(pc.v)
                                      else Mpmc.Idle)
  {
  }

  /**
    A push that runs alone.  With room the message joins the queue and the call returns.  Without room it returns
    under discard_log_msg and the message is gone; under block_retry it is back where it began, and no other
    message is lost or added.
   */
  lemma PushAlone(c: Config, s: System, t: Mpmc.Tid, msg: AsyncMsg)
    requires SystemInv(c, s) && Enabled(s, Push(t, msg))
    ensures var s2 := Tried(c, s, t, msg);
            && Enabled(s2, PushReturns(t))
            && var s3 := Next(c, s2, PushReturns(t));
               && Reaches(c, s, s3) && SystemInv(c, s3) && s3.worker == s.worker && SameButFor(s, t, s3)
               && s3.q.claimed == (if NoRoom(s.q) then s.q.claimed else s.q.claimed + [msg])
               && Mpmc.PcOf(s3.q, t) == (if NoRoom(s.q) && c.policy.BlockRetry? then Mpmc.EnqLoadCursor(msg)
                                         else Mpmc.Idle)
  {
    TriedOutcome(c, s, t, msg);
    var s2 := Tried(c, s, t, msg);
    Returning(c, s2, t);
    ReachesBy(c, s2, PushReturns(t));
    ReachesOn(c, s, s2, Next(c, s2, PushReturns(t)));
  }

  // ------------------------------------------------------------------ the worker

  /** No thread but the worker and perhaps one other is inside a call. */
  ghost predicate OnlyOther(s: System, d: Mpmc.Tid) {
    forall t: Mpmc.Tid | t != WORKER && t != d :: Mpmc.PcOf(s.q, t).Idle?
  }

  /** The logger at rest: the worker is between two rounds, and no ticket is half stored. */
  ghost predicate Resting(c: Config, s: System, d: Mpmc.Tid) {
    && SystemInv(c, s) && !s.joined && OnlyOther(s, d) && d != WORKER && !Mpmc.Holding(Mpmc.PcOf(s.q, d))
    && Mpmc.PcOf(s.q, WORKER).Idle?
  }

  lemma RestingConditions(c: Config, s: System, d: Mpmc.Tid)
    requires Resting(c, s, d)
    ensures NoValue(s.q) <==> Mpmc.Contents(s.q) == []
    ensures NoRoom(s.q) <==> |Mpmc.Contents(s.q)| == s.q.size
  {
    assert Mpmc.Quiescent(s.q) by {
      forall t: Mpmc.Tid ensures !Mpmc.Holding(Mpmc.PcOf(s.q, t)) {
        assert t == WORKER || t == d || Mpmc.PcOf(s.q, t).Idle?;
      }
    }
  }

  /** What the worker leaves alone when it goes on by itself until it is between two rounds. */
  ghost predicate Settled(c: Config, s: System, s': System) {
    && SystemInv(c, s') && !s'.joined && s'.destroying == s.destroying && s'.pushed == s.pushed
    && s'.q.claimed == s.q.claimed && s'.q.size == s.q.size && s'.handled >= s.handled
    && Mpmc.OnlyThreadMoved(s.q, WORKER, s'.q) && Mpmc.PcOf(s'.q, WORKER).Idle?
  }

  lemma SettledOn(c: Config, s: System, s1: System, s2: System)
    requires Settled(c, s, s1) && Settled(c, s1, s2)
    ensures Settled(c, s, s2)
  {
  }

  lemma WorkerHandled(c: Config, s: System)
    requires SystemInv(c, s) && Enabled(s, WorkerHandles(false))
    ensures var s', pc := Next(c, s, WorkerHandles(false)), Mpmc.PcOf(s.q, WORKER);
            && Reaches(c, s, s') && Settled(c, s, s') && s'.worker == ProcessNext(s.worker, c.fmt, Incoming(pc), false)
            && s'.handled == if pc.DeqDone? then s.handled + 1 else s.handled
  {
    ReachesBy(c, s, WorkerHandles(false));
  }

  /** The worker runs alone within dequeue(). */
  lemma WorkerLeft(c: Config, s: System, n: nat)
    requires SystemInv(c, s) && !s.joined && !Mpmc.Enqueuing(Mpmc.PcOf(s.q, WORKER))
    ensures var s' := Left(s, WORKER, n);
            && Reaches(c, s, s') && SystemInv(c, s') && Mpmc.OnlyThreadMoved(s.q, WORKER, s'.q)
            && s'.q.size == s.q.size
  {
    LeftAlone(c, s, WORKER, n);
    AloneOthers(s.q, WORKER, n);
  }

  /** Wherever it stands, the worker can finish the round it is in. */
  lemma WorkerSettles(c: Config, s: System) returns (s': System)
    requires SystemInv(c, s) && !s.joined
    ensures Reaches(c, s, s') && Settled(c, s, s')
  {
    var pc := Mpmc.PcOf(s.q, WORKER);
    if pc.Idle? {
      ReachesSelf(c, s);
      s' := s;
    } else {
      var s1 := s;
      ReachesSelf(c, s);
      if Looking(pc) {
        DequeueAlone(s.q, WORKER, 6);
        WorkerLeft(c, s, 6);
        s1 := Left(s, WORKER, 6);
      } else if Mpmc.Holding(pc) {
        HolderFinishes(s.q, WORKER, 2);
        WorkerLeft(c, s, 2);
        s1 := Left(s, WORKER, 2);
      }
      WorkerHandled(c, s1);
      s' := Next(c, s1, WorkerHandles(false));
      ReachesOn(c, s, s1, s');
    }
  }

  /** The first half of a round: dequeue() returns the first message, or nothing. */
  lemma WorkerDequeues(c: Config, s: System) returns (s': System)
    requires SystemInv(c, s) && Enabled(s, WorkerPolls)
    ensures Reaches(c, s, s') && SystemInv(c, s') && s' == s.(q := s'.q)
    ensures s'.q.claimed == s.q.claimed && s'.q.size == s.q.size && Mpmc.OnlyThreadMoved(s.q, WORKER, s'.q)
    ensures var pc := Mpmc.PcOf(s'.q, WORKER);
            if NoValue(s.q) then pc.DeqEmpty? else pc.DeqDone? && pc.v == Mpmc.Contents(s.q)[0]
  {
    ReachesBy(c, s, WorkerPolls);
    var s1 := Next(c, s, WorkerPolls);
    SameConditions(s.q, WORKER, Mpmc.DeqLoadCursor);
    DequeueAlone(s1.q, WORKER, 6);
    WorkerLeft(c, s1, 6);
    s' := Left(s1, WORKER, 6);
    ReachesOn(c, s, s1, s');
  }

  /** One round of a worker that is left alone: it handles the first message, or finds the queue empty. */
  lemma WorkerRound(c: Config, s: System) returns (s': System)
    requires SystemInv(c, s) && Enabled(s, WorkerPolls)
    ensures Reaches(c, s, s') && Settled(c, s, s')
    ensures if NoValue(s.q) then s'.handled == s.handled && s'.worker == ProcessNext(s.worker, c.fmt, None, false)
            else && s'.handled == s.handled + 1
                 && s'.worker == ProcessNext(s.worker, c.fmt, Some(Mpmc.Contents(s.q)[0]), false)
  {
    var s2 := WorkerDequeues(c, s);
    WorkerHandled(c, s2);
    s' := Next(c, s2, WorkerHandles(false));
    ReachesOn(c, s, s2, s');
  }

  /** The worker has handled all there is, has found the queue empty, and has flushed if it was asked to. */
  ghost predicate Drained(s: System) {
    && s.handled == |s.q.claimed| && !s.worker.flushRequested
    && (s.worker.active <==> !s.worker.terminateRequested)
  }

  /** A worker that is left alone drains the queue. */
  lemma {:induction false} WorkerDrains(c: Config, s: System, d: Mpmc.Tid) returns (s': System)
    requires Resting(c, s, d) && s.worker.active
    ensures Reaches(c, s, s') && Settled(c, s, s') && Resting(c, s', d) && Drained(s')
    decreases |s.q.claimed| - s.handled
  {
    RestingConditions(c, s, d);
    s' := WorkerRound(c, s);
    if !NoValue(s.q) {
      var s1 := s';
      s' := WorkerDrains(c, s1, d);
      ReachesOn(c, s, s1, s');
      SettledOn(c, s, s1, s');
    }
  }

  // ------------------------------------------------------------------ the destructor

  /** The destructor has asked the worker to end. */
  ghost predicate Announced(s: System) {
    s.destroying ==> Ends(PushedBy(s, DESTRUCTOR))
  }

  ghost predicate Ends(msgs: seq<AsyncMsg>) {
    exists i :: 0 <= i < |msgs| && msgs[i].kind.Terminate?
  }

  lemma StepAnnounced(c: Config, s: System, a: Action)
    requires Announced(s) && Enabled(s, a)
    ensures Announced(Next(c, s, a))
  {
    if a.Destroy? {
      var n := |PushedBy(s, DESTRUCTOR)|;
      assert PushedBy(Next(c, s, a), DESTRUCTOR)[n] == a.msg;
    }
  }

  lemma {:induction false} RunAnnounced(c: Config, s: System, actions: seq<Action>, s': System)
    requires SystemInv(c, s) && Announced(s) && Run(c, s, actions, s')
    ensures SystemInv(c, s') && Announced(s')
    decreases |actions|
  {
    if actions == [] {
    } else {
      SystemStepInv(c, s, actions[0]);
      StepAnnounced(c, s, actions[0]);
      RunAnnounced(c, Next(c, s, actions[0]), actions[1..], s');
    }
  }

  lemma {:induction false} ClaimedSomewhere(claimed: seq<AsyncMsg>, producer: seq<Mpmc.Tid>, t: Mpmc.Tid, i: nat)
    requires |claimed| == |producer| && i < |ClaimsBy(claimed, producer, t)|
    ensures ClaimsBy(claimed, producer, t)[i] in claimed
  {
    var n := |claimed| - 1;
    if i < |ClaimsBy(claimed[..n], producer[..n], t)| {
      ClaimedSomewhere(claimed[..n], producer[..n], t, i);
    }
  }

  /** Once its call has returned, the last ticket is the destructor's. */
  lemma LastEnds(c: Config, s: System)
    requires SystemInv(c, s) && Announced(s) && s.destroying && c.policy.BlockRetry?
    requires Mpmc.PcOf(s.q, DESTRUCTOR).Idle?
    ensures s.q.claimed != [] && s.q.claimed[|s.q.claimed| - 1].kind.Terminate?
  {
    assert PusherInv(c, s, DESTRUCTOR);
    var claims := ClaimsBy(s.q.claimed, s.q.producer, DESTRUCTOR);
    assert claims + [] == claims == PushedBy(s, DESTRUCTOR);
    var i: nat :| i < |claims| && claims[i].kind.Terminate?;
    ClaimedSomewhere(s.q.claimed, s.q.producer, DESTRUCTOR, i);
    var p: nat :| p < |s.q.claimed| && s.q.claimed[p] == claims[i];
    assert s.q.claimed[p].kind.Terminate?;
  }

  /** And when everything is handled, the worker has ended. */
  lemma EndedWhenDrained(c: Config, s: System)
    requires SystemInv(c, s) && Announced(s) && s.destroying && c.policy.BlockRetry?
    requires Mpmc.PcOf(s.q, DESTRUCTOR).Idle? && (!s.worker.active || Drained(s))
    ensures !s.worker.active
  {
    LastEnds(c, s);
    if s.handled == |s.q.claimed| { assert s.q.claimed[..s.handled] == s.q.claimed; }
  }

  /** The call of the destructor has gone on, and nothing else. */
  ghost predicate CallWent(c: Config, s: System, s': System) {
    && SystemInv(c, s') && Announced(s') && !s'.joined && s'.destroying && s'.worker == s.worker
    && s'.handled == s.handled && Mpmc.OnlyThreadMoved(s.q, DESTRUCTOR, s'.q)
  }

  lemma CallLeft(c: Config, s: System, n: nat)
    requires SystemInv(c, s) && Announced(s) && !s.joined && s.destroying
    ensures Reaches(c, s, Left(s, DESTRUCTOR, n)) && CallWent(c, s, Left(s, DESTRUCTOR, n))
  {
    LeftAlone(c, s, DESTRUCTOR, n);
    AloneOthers(s.q, DESTRUCTOR, n);
  }

  lemma CallReturns(c: Config, s: System)
    requires SystemInv(c, s) && Announced(s) && s.destroying && Enabled(s, PushReturns(DESTRUCTOR))
    ensures var s' := Next(c, s, PushReturns(DESTRUCTOR));
            && Reaches(c, s, s') && CallWent(c, s, s')
            && (Mpmc.PcOf(s.q, DESTRUCTOR).EnqDone? ==> Mpmc.PcOf(s'.q, DESTRUCTOR).Idle?)
            && (Mpmc.PcOf(s.q, DESTRUCTOR).EnqFull? && c.policy.BlockRetry? ==>
                  Mpmc.PcOf(s'.q, DESTRUCTOR).EnqLoadCursor?)
  {
    ReachesBy(c, s, PushReturns(DESTRUCTOR));
  }

  /** The call has a ticket: it stores the message and returns. */
  lemma CallWithTicket(c: Config, s: System) returns (s': System)
    requires SystemInv(c, s) && Announced(s) && !s.joined && s.destroying
    requires Mpmc.Holding(Mpmc.PcOf(s.q, DESTRUCTOR)) || Mpmc.PcOf(s.q, DESTRUCTOR).EnqDone?
    ensures Reaches(c, s, s') && CallWent(c, s, s') && Mpmc.PcOf(s'.q, DESTRUCTOR).Idle?
  {
    assert PusherInv(c, s, DESTRUCTOR);
    var s1 := s;
    ReachesSelf(c, s);
    if Mpmc.Holding(Mpmc.PcOf(s.q, DESTRUCTOR)) {
      HolderFinishes(s.q, DESTRUCTOR, 2);
      CallLeft(c, s, 2);
      s1 := Left(s, DESTRUCTOR, 2);
    }
    CallReturns(c, s1);
    s' := Next(c, s1, PushReturns(DESTRUCTOR));
    ReachesOn(c, s, s1, s');
  }

  /** The call is in its loop and there is room. */
  lemma CallTrying(c: Config, s: System) returns (s': System)
    requires SystemInv(c, s) && Announced(s) && !s.joined && s.destroying
    requires Trying(Mpmc.PcOf(s.q, DESTRUCTOR)) && !NoRoom(s.q)
    ensures Reaches(c, s, s') && CallWent(c, s, s') && Mpmc.PcOf(s'.q, DESTRUCTOR).Idle?
  {
    EnqueueAlone(s.q, DESTRUCTOR, 6);
    CallLeft(c, s, 6);
    var s1 := Left(s, DESTRUCTOR, 6);
    s' := CallWithTicket(c, s1);
    ReachesOn(c, s, s1, s');
  }

  /** In a queue that was drained the call of the destructor returns. */
  lemma CallReturnsAlone(c: Config, s: System) returns (s': System)
    requires SystemInv(c, s) && Announced(s) && !s.joined && s.destroying && c.policy.BlockRetry?
    requires Mpmc.Waiting(Mpmc.PcOf(s.q, DESTRUCTOR)) ==> Resting(c, s, DESTRUCTOR) && Mpmc.Contents(s.q) == []
    ensures Reaches(c, s, s') && CallWent(c, s, s') && Mpmc.PcOf(s'.q, DESTRUCTOR).Idle?
  {
    assert PusherInv(c, s, DESTRUCTOR);
    var pc := Mpmc.PcOf(s.q, DESTRUCTOR);
    if pc.Idle? {
      ReachesSelf(c, s);
      s' := s;
    } else if !Mpmc.Waiting(pc) {
      s' := CallWithTicket(c, s);
    } else {
      RestingConditions(c, s, DESTRUCTOR);
      if pc.EnqFull? {
        CallReturns(c, s);
        var s1 := Next(c, s, PushReturns(DESTRUCTOR));
        Retried(c, s, DESTRUCTOR);
        RestingConditions(c, s1, DESTRUCTOR);
        s' := CallTrying(c, s1);
        ReachesOn(c, s, s1, s');
      } else {
        s' := CallTrying(c, s);
      }
    }
  }

  /** In a state with the destructor at work the others have returned. */
  lemma OthersReturned(c: Config, s: System)
    requires SystemInv(c, s) && s.destroying
    ensures OnlyOther(s, DESTRUCTOR)
  {
    forall t: Mpmc.Tid | t != WORKER && t != DESTRUCTOR ensures Mpmc.PcOf(s.q, t).Idle? {
      assert PusherInv(c, s, t);
    }
  }

  lemma SettledAnnounced(c: Config, s: System, s': System)
    requires Settled(c, s, s') && Announced(s)
    ensures Announced(s')
  {
  }

  /** The worker ends its round and, if no ticket is half stored, drains the queue. */
  lemma WorkerFirst(c: Config, s: System) returns (s': System)
    requires SystemInv(c, s) && Announced(s) && !s.joined && s.destroying
    ensures Reaches(c, s, s') && Settled(c, s, s') && Announced(s')
    ensures Mpmc.PcOf(s'.q, DESTRUCTOR) == Mpmc.PcOf(s.q, DESTRUCTOR)
    ensures Mpmc.Holding(Mpmc.PcOf(s'.q, DESTRUCTOR)) || !s'.worker.active || Drained(s')
  {
    s' := WorkerSettles(c, s);
    SettledAnnounced(c, s, s');
    OthersReturned(c, s');
    if s'.worker.active && !Mpmc.Holding(Mpmc.PcOf(s'.q, DESTRUCTOR)) {
      var s1 := s';
      s' := WorkerDrains(c, s1, DESTRUCTOR);
      ReachesOn(c, s, s1, s');
      SettledOn(c, s, s1, s');
    }
  }

  /** A call that still waits for a ticket finds the queue empty after that. */
  lemma WaitingFindsRoom(c: Config, s: System)
    requires SystemInv(c, s) && s.destroying && !s.joined && Mpmc.PcOf(s.q, WORKER).Idle?
    requires Mpmc.Waiting(Mpmc.PcOf(s.q, DESTRUCTOR)) && (!s.worker.active || Drained(s))
    ensures Resting(c, s, DESTRUCTOR) && Mpmc.Contents(s.q) == []
  {
    OthersReturned(c, s);
  }

  /** With the call returned, the worker drains what is left, and the destructor joins it. */
  lemma LastRounds(c: Config, s: System) returns (s': System)
    requires SystemInv(c, s) && Announced(s) && !s.joined && s.destroying && c.policy.BlockRetry?
    requires Mpmc.PcOf(s.q, DESTRUCTOR).Idle?
    ensures Reaches(c, s, s') && s'.joined && s.q.claimed <= s'.q.claimed
  {
    var s1 := WorkerFirst(c, s);
    EndedWhenDrained(c, s1);
    ReachesBy(c, s1, Join);
    s' := Next(c, s1, Join);
    ReachesOn(c, s, s1, s');
  }

  /**
    Under block_retry no reachable state is a dead end for the destructor: with only the worker and the
    destructor's own thread running on, the join returns.
   */
  lemma DestructorCanJoin(c: Config, queueSize: nat, actions: seq<Action>, s: System)
    requires queueSize >= 2 && Run(c, Start(c, queueSize), actions, s) && s.destroying && c.policy.BlockRetry?
    ensures exists s' :: Reaches(c, s, s') && s'.joined
  {
    StartInv(c, queueSize);
    RunAnnounced(c, Start(c, queueSize), actions, s);
    if s.joined {
      ReachesSelf(c, s);
    } else {
      var s1 := WorkerFirst(c, s);
      if Mpmc.Waiting(Mpmc.PcOf(s1.q, DESTRUCTOR)) { WaitingFindsRoom(c, s1); }
      var s2 := CallReturnsAlone(c, s1);
      ReachesOn(c, s, s1, s2);
      var s' := LastRounds(c, s2);
      ReachesOn(c, s, s2, s');
    }
  }

  // ------------------------------------------------------------------ a terminate message that was discarded

  /** The destructor's message did not get a ticket, and nobody is left to push. */
  ghost predicate Unheard(c: Config, s: System) {
    && SystemInv(c, s) && s.destroying && Mpmc.PcOf(s.q, DESTRUCTOR).Idle?
    && forall p :: 0 <= p < |s.q.claimed| ==> !s.q.claimed[p].kind.Terminate?
  }

  lemma UnheardStep(c: Config, s: System, a: Action)
    requires Unheard(c, s) && Enabled(s, a)
    ensures Unheard(c, Next(c, s, a)) && !Next(c, s, a).joined
  {
    SystemStepInv(c, s, a);
    OthersReturned(c, s);
    if a.QueueStep? {
      Mpmc.StepIsMove(s.q, a.t, if a.spurious then Mpmc.SpuriousFailure else Mpmc.Advance);
      assert a.t == WORKER && !Mpmc.Enqueuing(Mpmc.PcOf(s.q, WORKER));
    }
  }

  lemma {:induction false} UnheardRun(c: Config, s: System, actions: seq<Action>, s': System)
    requires Unheard(c, s) && !s.joined && Run(c, s, actions, s')
    ensures !s'.joined
    decreases |actions|
  {
    if actions == [] {
    } else {
      UnheardStep(c, s, actions[0]);
      UnheardRun(c, Next(c, s, actions[0]), actions[1..], s');
    }
  }

  lemma NeverJoins(c: Config, s: System)
    requires Unheard(c, s) && !s.joined
    ensures forall s' | Reaches(c, s, s') :: !s'.joined
  {
    forall s' | Reaches(c, s, s') ensures !s'.joined {
      var actions :| Run(c, s, actions, s');
      UnheardRun(c, s, actions, s');
    }
  }

  /** Under discard_log_msg a destructor that finds the queue full loses its message, and the join never returns. */
  lemma DiscardedEnd(c: Config, s: System, msg: AsyncMsg) returns (s': System)
    requires SystemInv(c, s) && c.policy.DiscardLogMsg? && Enabled(s, Destroy(msg)) && NoRoom(s.q)
    ensures Reaches(c, s, s') && s'.destroying && forall s'' | Reaches(c, s', s'') :: !s''.joined
  {
    ReachesBy(c, s, Destroy(msg));
    var s1 := Next(c, s, Destroy(msg));
    SameConditions(s.q, DESTRUCTOR, Mpmc.EnqLoadCursor(msg));
    EnqueueAlone(s1.q, DESTRUCTOR, 6);
    LeftAlone(c, s1, DESTRUCTOR, 6);
    var s2 := Left(s1, DESTRUCTOR, 6);
    ReachesOn(c, s, s1, s2);
    Returning(c, s2, DESTRUCTOR);
    ReachesBy(c, s2, PushReturns(DESTRUCTOR));
    s' := Next(c, s2, PushReturns(DESTRUCTOR));
    ReachesOn(c, s, s2, s');
    NeverJoins(c, s');
  }

  const TEXT := AsyncMsg("", 0, 0, 0, "", Log)
  const END := AsyncMsg("", 0, 0, 0, "", Terminate)

  /** It does happen: two messages fill a queue of two, and the destructor comes before the worker. */
  lemma HangingDestructor(c: Config)
    requires c.policy.DiscardLogMsg?
    ensures exists s :: Reaches(c, Start(c, 2), s) && s.destroying && forall s' | Reaches(c, s, s') :: !s'.joined
  {
    var s0 := Start(c, 2);
    StartInv(c, 2);
    assert forall t: Mpmc.Tid :: Mpmc.PcOf(s0.q, t).Idle?;
    PushAlone(c, s0, 2, TEXT);
    var s1 := Next(c, Tried(c, s0, 2, TEXT), PushReturns(2));
    AllIdle(s0, 2, s1);
    PushAlone(c, s1, 2, TEXT);
    var s2 := Next(c, Tried(c, s1, 2, TEXT), PushReturns(2));
    AllIdle(s1, 2, s2);
    ReachesOn(c, s0, s1, s2);
    var s := DiscardedEnd(c, s2, END);
    ReachesOn(c, s0, s2, s);
  }

  lemma AllIdle(s: System, t: Mpmc.Tid, s': System)
    requires SameButFor(s, t, s') && Mpmc.PcOf(s'.q, t).Idle? && forall u: Mpmc.Tid :: Mpmc.PcOf(s.q, u).Idle?
    ensures forall u: Mpmc.Tid :: Mpmc.PcOf(s'.q, u).Idle?
  {
    forall u: Mpmc.Tid ensures Mpmc.PcOf(s'.q, u).Idle? {
      assert Mpmc.PcOf(s.q, u).Idle?;
    }
  }
}
