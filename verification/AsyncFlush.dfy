/**
  What the sinks of the asynchronous logger receive, flushes included.  A round is one call of
  process_next_msg(): the message it got, if any, and whether the flush interval had passed.
 */
module AsyncFlush {
  import opened Wrappers
  import opened AsyncLog
  import Mpmc = MpmcQueue

  datatype Round = Round(incoming: Option<AsyncMsg>, flushDue: bool)

  function After(w: Worker, fmt: Formatter, rounds: seq<Round>): Worker {
    if rounds == [] then w
    else
      var n := |rounds| - 1;
      ProcessNext(After(w, fmt, rounds[..n]), fmt, rounds[n].incoming, rounds[n].flushDue)
  }

  // ------------------------------------------------------------------ the events of a sink, by themselves

  /** The round got a message of one of the kinds. */
  predicate Got(r: Round, kinds: set<Kind>) {
    r.incoming.Some? && r.incoming.value.kind in kinds
  }

  /** A flush or terminate message has come, and the queue was not found empty since. */
  ghost predicate Outstanding(rounds: seq<Round>) {
    exists j ::
      && 0 <= j < |rounds| && Got(rounds[j], {Flush, Terminate})
      && forall k :: j < k < |rounds| ==> rounds[k].incoming.Some?
  }

  ghost predicate Terminated(rounds: seq<Round>) {
    exists j :: 0 <= j < |rounds| && Got(rounds[j], {Terminate})
  }

  /** The queue was found empty after a terminate message. */
  ghost predicate Stopped(rounds: seq<Round>) {
    exists k :: 0 <= k < |rounds| && rounds[k].incoming.None? && Terminated(rounds[..k])
  }

  /** One event for a log message; one flush for an empty queue with a flush due or outstanding; nothing else. */
  ghost function EventsOf(fmt: Formatter, before: seq<Round>, r: Round): seq<SinkEvent> {
    if Got(r, {Log}) then
      var a := r.incoming.value;
      [Logged(fmt(LogMsg(a.loggerName, a.level, a.time, a.threadId, a.txt, "")))]
    else if r.incoming.None? && (r.flushDue || Outstanding(before)) then [Flushed]
    else []
  }

  ghost function Events(fmt: Formatter, rounds: seq<Round>): seq<SinkEvent> {
    if rounds == [] then []
    else
      var n := |rounds| - 1;
      Events(fmt, rounds[..n]) + EventsOf(fmt, rounds[..n], rounds[n])
  }

  lemma OutstandingStep(rounds: seq<Round>, r: Round)
    ensures Outstanding(rounds + [r]) <==> r.incoming.Some? && (Got(r, {Flush, Terminate}) || Outstanding(rounds))
  {
    var all, n := rounds + [r], |rounds|;
    if Outstanding(all) {
      var j :| 0 <= j < |all| && Got(all[j], {Flush, Terminate}) && forall k :: j < k < |all| ==> all[k].incoming.Some?;
      assert all[n].incoming.Some?;
      if j < n {
        assert Got(rounds[j], {Flush, Terminate});
        forall k | j < k < n ensures rounds[k].incoming.Some? { assert all[k].incoming.Some?; }
      }
    }
    if r.incoming.Some? && Got(r, {Flush, Terminate}) { assert Got(all[n], {Flush, Terminate}); }
    if r.incoming.Some? && Outstanding(rounds) {
      var j :| 0 <= j < n && Got(rounds[j], {Flush, Terminate}) && forall k :: j < k < n ==> rounds[k].incoming.Some?;
      assert Got(all[j], {Flush, Terminate});
      forall k | j < k < |all| ensures all[k].incoming.Some? { assert k < n ==> rounds[k].incoming.Some?; }
    }
  }

  lemma TerminatedStep(rounds: seq<Round>, r: Round)
    ensures Terminated(rounds + [r]) <==> Terminated(rounds) || Got(r, {Terminate})
  {
    var all := rounds + [r];
    if Terminated(rounds) {
      var j :| 0 <= j < |rounds| && Got(rounds[j], {Terminate});
      assert Got(all[j], {Terminate});
    }
    if Got(r, {Terminate}) { assert Got(all[|rounds|], {Terminate}); }
  }

  lemma StoppedStep(rounds: seq<Round>, r: Round)
    ensures Stopped(rounds + [r]) <==> Stopped(rounds) || (r.incoming.None? && Terminated(rounds))
    ensures Stopped(rounds) ==> Terminated(rounds)
  {
    var all, n := rounds + [r], |rounds|;
    assert all[..n] == rounds;
    if Stopped(all) {
      var k :| 0 <= k < |all| && all[k].incoming.None? && Terminated(all[..k]);
      if k < n { assert all[..k] == rounds[..k] && rounds[k].incoming.None?; }
    }
    if Stopped(rounds) {
      var k :| 0 <= k < n && rounds[k].incoming.None? && Terminated(rounds[..k]);
      assert all[..k] == rounds[..k] && all[k].incoming.None?;
      var j :| 0 <= j < k && Got(rounds[..k][j], {Terminate});
      assert Got(rounds[j], {Terminate});
    }
    if r.incoming.None? && Terminated(rounds) { assert all[n].incoming.None?; }
  }

  /** The worker after its rounds: what it still has to do, whether it goes on, and what every sink received. */
  ghost predicate Tells(w: Worker, fmt: Formatter, sinkCount: nat, rounds: seq<Round>) {
    && (w.flushRequested <==> Outstanding(rounds))
    && (w.terminateRequested <==> Terminated(rounds))
    && (w.active <==> !Stopped(rounds))
    && |w.sinks| == sinkCount
    && forall i :: 0 <= i < sinkCount ==> w.sinks[i] == Events(fmt, rounds)
  }

  lemma TellsStep(w: Worker, fmt: Formatter, sinkCount: nat, rounds: seq<Round>, r: Round)
    requires Tells(w, fmt, sinkCount, rounds)
    ensures Tells(ProcessNext(w, fmt, r.incoming, r.flushDue), fmt, sinkCount, rounds + [r])
  {
    OutstandingStep(rounds, r);
    TerminatedStep(rounds, r);
    StoppedStep(rounds, r);
    var all := rounds + [r];
    assert all[..|rounds|] == rounds;
    assert Events(fmt, all) == Events(fmt, rounds) + EventsOf(fmt, rounds, r);
    if Got(r, {Log}) {
      var a := r.incoming.value;
      var m := LogMsg(a.loggerName, a.level, a.time, a.threadId, a.txt, "");
      assert FillLogMsg(a, FRESH_LOG_MSG) == m && Rendered(fmt, a) == "" + fmt(m) == fmt(m);
    }
  }

  /**
    For every sequence of rounds of a new logger: every sink holds the events of the rounds, in particular exactly
    one flush for every empty queue with a flush due or outstanding and no other; and the worker has ended
    exactly if it found the queue empty after a terminate message.
   */
  lemma {:induction false} SinkEvents(fmt: Formatter, sinkCount: nat, rounds: seq<Round>)
    ensures Tells(After(Worker(false, false, true, seq(sinkCount, i => [])), fmt, rounds), fmt, sinkCount, rounds)
  {
    if rounds == [] {
    } else {
      var n := |rounds| - 1;
      var start := Worker(false, false, true, seq(sinkCount, i => []));
      SinkEvents(fmt, sinkCount, rounds[..n]);
      TellsStep(After(start, fmt, rounds[..n]), fmt, sinkCount, rounds[..n], rounds[n]);
      assert rounds[..n] + [rounds[n]] == rounds;
    }
  }

  // ------------------------------------------------------------------ rounds within the system

  /** The rounds of the worker in a run. */
  ghost function RoundsOf(c: Config, s: System, actions: seq<Action>, s': System): seq<Round>
    requires Run(c, s, actions, s')
    decreases |actions|
  {
    if actions == [] then []
    else
      (if actions[0].WorkerHandles? then [Round(Incoming(Mpmc.PcOf(s.q, WORKER)), actions[0].flushDue)] else [])
      + RoundsOf(c, Next(c, s, actions[0]), actions[1..], s')
  }

  lemma {:induction false} AfterMore(w: Worker, fmt: Formatter, r: Round, rounds: seq<Round>)
    ensures After(w, fmt, [r] + rounds) == After(ProcessNext(w, fmt, r.incoming, r.flushDue), fmt, rounds)
    decreases |rounds|
  {
    var all := [r] + rounds;
    if rounds == [] {
      assert all[..0] == [];
    } else {
      AfterMore(w, fmt, r, rounds[..|rounds| - 1]);
      assert all[..|rounds|] == [r] + rounds[..|rounds| - 1];
    }
  }

  lemma {:induction false} RunRounds(c: Config, s: System, actions: seq<Action>, s': System)
    requires Run(c, s, actions, s')
    ensures s'.worker == After(s.worker, c.fmt, RoundsOf(c, s, actions, s'))
    decreases |actions|
  {
    if actions == [] {
    } else {
      var s1 := Next(c, s, actions[0]);
      RunRounds(c, s1, actions[1..], s');
      if actions[0].WorkerHandles? {
        AfterMore(s.worker, c.fmt, Round(Incoming(Mpmc.PcOf(s.q, WORKER)), actions[0].flushDue),
          RoundsOf(c, s1, actions[1..], s'));
      } else {
        assert s1.worker == s.worker;
        assert [] + RoundsOf(c, s1, actions[1..], s') == RoundsOf(c, s1, actions[1..], s');
      }
    }
  }

  /** The messages that the rounds got. */
  function Messages(rounds: seq<Round>): seq<AsyncMsg> {
    if rounds == [] then []
    else (if rounds[0].incoming.Some? then [rounds[0].incoming.value] else []) + Messages(rounds[1..])
  }

  lemma {:induction false} RunMessages(c: Config, s: System, actions: seq<Action>, s': System)
    requires SystemInv(c, s) && Run(c, s, actions, s')
    ensures SystemInv(c, s')
    ensures s'.q.claimed[..s'.handled] == s.q.claimed[..s.handled] + Messages(RoundsOf(c, s, actions, s'))
    decreases |actions|
  {
    if actions == [] {
    } else {
      var s1 := Next(c, s, actions[0]);
      SystemStepInv(c, s, actions[0]);
      RunMessages(c, s1, actions[1..], s');
      StepMessages(c, s, actions[0], RoundsOf(c, s1, actions[1..], s'));
    }
  }

  lemma StepMessages(c: Config, s: System, a: Action, more: seq<Round>)
    requires SystemInv(c, s) && Enabled(s, a) && SystemInv(c, Next(c, s, a))
    ensures var s1 := Next(c, s, a);
            var first := if a.WorkerHandles? then [Round(Incoming(Mpmc.PcOf(s.q, WORKER)), a.flushDue)] else [];
            s1.q.claimed[..s1.handled] + Messages(more) == s.q.claimed[..s.handled] + Messages(first + more)
  {
    var s1 := Next(c, s, a);
    if a.WorkerHandles? {
      HandlesNext(s);
      var r := Round(Incoming(Mpmc.PcOf(s.q, WORKER)), a.flushDue);
      assert ([r] + more)[1..] == more;
    } else {
      OtherStep(c, s, a);
      assert s1.q.claimed[..s.handled] == s.q.claimed[..s.handled];
      assert [] + more == more;
    }
  }

  /**
    In every run the worker got the queued messages in ticket order, the sinks hold the events of its rounds, and
    the worker goes on as these say.
   */
  lemma RunEvents(c: Config, queueSize: nat, actions: seq<Action>, s: System)
    requires queueSize >= 2 && Run(c, Start(c, queueSize), actions, s)
    ensures var rounds := RoundsOf(c, Start(c, queueSize), actions, s);
            && Tells(s.worker, c.fmt, c.sinkCount, rounds)
            && s.handled <= |s.q.claimed| && Messages(rounds) == s.q.claimed[..s.handled]
  {
    StartInv(c, queueSize);
    RunMessages(c, Start(c, queueSize), actions, s);
    RunRounds(c, Start(c, queueSize), actions, s);
    SinkEvents(c.fmt, c.sinkCount, RoundsOf(c, Start(c, queueSize), actions, s));
  }

  // ------------------------------------------------------------------ a flush covers what was queued before it

  /** The sink was flushed at some time after it had received these texts. */
  ghost predicate FlushedAfter(sink: seq<SinkEvent>, texts: seq<string>) {
    exists k :: 0 <= k < |sink| && sink[k] == Flushed && texts <= LogTexts(sink[..k])
  }

  /** Every flush message handled so far is about to be honoured, or has been in every sink. */
  ghost predicate Honoured(c: Config, w: Worker, done: seq<AsyncMsg>) {
    w.flushRequested || AllFlushed(c, w, done)
  }

  ghost predicate AllFlushed(c: Config, w: Worker, done: seq<AsyncMsg>) {
    forall p, i :: 0 <= p < |done| && done[p].kind.Flush? && 0 <= i < |w.sinks| ==>
      FlushedAfter(w.sinks[i], SyncOutput(c.fmt, LogMessages(done[..p])))
  }

  lemma FlushedStays(sink: seq<SinkEvent>, e: SinkEvent, texts: seq<string>)
    requires FlushedAfter(sink, texts)
    ensures FlushedAfter(sink + [e], texts)
  {
    var k :| 0 <= k < |sink| && sink[k] == Flushed && texts <= LogTexts(sink[..k]);
    assert (sink + [e])[k] == Flushed && (sink + [e])[..k] == sink[..k];
  }

  lemma FlushedNow(sink: seq<SinkEvent>, texts: seq<string>)
    requires texts <= LogTexts(sink)
    ensures FlushedAfter(sink + [Flushed], texts)
  {
    assert (sink + [Flushed])[|sink|] == Flushed && (sink + [Flushed])[..|sink|] == sink;
  }

  lemma {:induction false} EarlierOutput(fmt: Formatter, msgs: seq<AsyncMsg>, p: nat)
    requires p <= |msgs|
    ensures SyncOutput(fmt, LogMessages(msgs[..p])) <= SyncOutput(fmt, LogMessages(msgs))
    decreases |msgs|
  {
    if p == |msgs| {
      assert msgs[..p] == msgs;
    } else {
      var n := |msgs| - 1;
      EarlierOutput(fmt, msgs[..n], p);
      assert msgs[..n][..p] == msgs[..p];
      assert LogMessages(msgs[..n]) + [] == LogMessages(msgs[..n]);
      if msgs[n].kind.Log? {
        SyncOutputAppend(fmt, LogMessages(msgs[..n]), FillLogMsg(msgs[n], FRESH_LOG_MSG));
      }
    }
  }

  lemma HonouredStep(c: Config, w: Worker, done: seq<AsyncMsg>, incoming: Option<AsyncMsg>, flushDue: bool)
    requires OutputInv(c, w, done) && Honoured(c, w, done)
    ensures var w' := ProcessNext(w, c.fmt, incoming, flushDue);
            && Honoured(c, w', if incoming.Some? then done + [incoming.value] else done)
            && (incoming.None? ==> AllFlushed(c, w', done))
  {
    match incoming
    case Some(a) =>
      if a.kind.Log? && AllFlushed(c, w, done) {
        LoggedKeeps(c, w, done, a);
      }
    case None =>
      if w.flushRequested || flushDue {
        FlushingCovers(c, w, done);
      }
  }

  lemma LoggedKeeps(c: Config, w: Worker, done: seq<AsyncMsg>, a: AsyncMsg)
    requires AllFlushed(c, w, done) && a.kind.Log?
    ensures AllFlushed(c, w.(sinks := Broadcast(w.sinks, Logged(Rendered(c.fmt, a)))), done + [a])
  {
    forall p, i | 0 <= p < |done + [a]| && (done + [a])[p].kind.Flush? && 0 <= i < |w.sinks|
      ensures FlushedAfter(w.sinks[i] + [Logged(Rendered(c.fmt, a))], SyncOutput(c.fmt, LogMessages((done + [a])[..p])))
    {
      assert (done + [a])[p] == done[p] && (done + [a])[..p] == done[..p];
      FlushedStays(w.sinks[i], Logged(Rendered(c.fmt, a)), SyncOutput(c.fmt, LogMessages(done[..p])));
    }
  }

  lemma FlushingCovers(c: Config, w: Worker, done: seq<AsyncMsg>)
    requires OutputInv(c, w, done)
    ensures AllFlushed(c, w.(sinks := Broadcast(w.sinks, Flushed)), done)
  {
    forall p, i | 0 <= p < |done| && done[p].kind.Flush? && 0 <= i < |w.sinks|
      ensures FlushedAfter(w.sinks[i] + [Flushed], SyncOutput(c.fmt, LogMessages(done[..p])))
    {
      EarlierOutput(c.fmt, done, p);
      FlushedNow(w.sinks[i], SyncOutput(c.fmt, LogMessages(done[..p])));
    }
  }

  ghost predicate FlushInv(c: Config, s: System) {
    s.handled <= |s.q.claimed| && Honoured(c, s.worker, s.q.claimed[..s.handled])
  }

  /** Everything but handling a message leaves worker and handled messages alone. */
  lemma OtherStep(c: Config, s: System, a: Action)
    requires SystemInv(c, s) && Enabled(s, a) && !a.WorkerHandles?
    ensures var s' := Next(c, s, a);
            s'.worker == s.worker && s'.handled == s.handled && s.q.claimed <= s'.q.claimed
  {
    if a.QueueStep? {
      Mpmc.StepExtends(s.q, a.t, if a.spurious then Mpmc.SpuriousFailure else Mpmc.Advance);
    }
  }

  lemma StepFlush(c: Config, s: System, a: Action)
    requires SystemInv(c, s) && FlushInv(c, s) && Enabled(s, a)
    ensures FlushInv(c, Next(c, s, a))
  {
    if a.WorkerHandles? {
      HandledFlush(c, s, a.flushDue);
    } else {
      OtherStep(c, s, a);
      assert Next(c, s, a).q.claimed[..s.handled] == s.q.claimed[..s.handled];
    }
  }

  lemma HandledFlush(c: Config, s: System, flushDue: bool)
    requires SystemInv(c, s) && FlushInv(c, s) && Enabled(s, WorkerHandles(flushDue))
    ensures FlushInv(c, Next(c, s, WorkerHandles(flushDue)))
  {
    HandlesNext(s);
    HonouredStep(c, s.worker, s.q.claimed[..s.handled], Incoming(Mpmc.PcOf(s.q, WORKER)), flushDue);
  }

  /** The worker gets the messages in ticket order. */
  lemma HandlesNext(s: System)
    requires Mpmc.Inv(s.q) && WorkerThreadInv(s)
    ensures var pc := Mpmc.PcOf(s.q, WORKER);
            pc.DeqDone? ==> s.handled < |s.q.claimed| && pc.v == s.q.claimed[s.handled]
                            && s.q.claimed[..s.handled + 1] == s.q.claimed[..s.handled] + [pc.v]
  {
    assert Mpmc.ThreadInv(s.q, WORKER);
  }

  lemma {:induction false} RunFlush(c: Config, s: System, actions: seq<Action>, s': System)
    requires SystemInv(c, s) && FlushInv(c, s) && Run(c, s, actions, s')
    ensures SystemInv(c, s') && FlushInv(c, s')
    decreases |actions|
  {
    if actions == [] {
    } else {
      SystemStepInv(c, s, actions[0]);
      StepFlush(c, s, actions[0]);
      RunFlush(c, Next(c, s, actions[0]), actions[1..], s');
    }
  }

  /**
    In every run, when the worker finds the queue empty: for every flush message it has handled, every sink has been
    flushed after it received all that was queued before that message.
   */
  lemma FlushIsHonoured(c: Config, queueSize: nat, actions: seq<Action>, s: System, flushDue: bool)
    requires queueSize >= 2 && Run(c, Start(c, queueSize), actions, s)
    requires Enabled(s, WorkerHandles(flushDue)) && Mpmc.PcOf(s.q, WORKER).DeqEmpty?
    ensures s.handled <= |s.q.claimed|
    ensures AllFlushed(c, Next(c, s, WorkerHandles(flushDue)).worker, s.q.claimed[..s.handled])
  {
    StartInv(c, queueSize);
    RunFlush(c, Start(c, queueSize), actions, s);
    HonouredStep(c, s.worker, s.q.claimed[..s.handled], None, flushDue);
  }
}
