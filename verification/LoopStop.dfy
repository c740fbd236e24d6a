/** When a loop that was asked to stop leaves, over whole runs. */
module LoopStop {
  import opened Wrappers
  import opened LoopProtocol
  import opened LoopTraces
  import opened LoopProgress

  predicate Leaving(s: System, l: nat) {
    l < |s.loops| && s.loops[l].exitRequested
  }

  predicate Stopping(s: System, l: nat) {
    l < |s.loops| && s.loops[l].isStopping
  }

  /** The loop was called as often as its callbacks ran. */
  ghost predicate Settled(s: System, l: nat) {
    Number(s.issued, To(l)) == Number(s.ran, From(l + 1))
  }

  lemma ExitStays(s: System, a: Action, l: nat)
    requires Enabled(s, a) && !a.Frame? && !a.Stop?
    ensures Leaving(Next(s, a), l) <==> Leaving(s, l)
  {
    if a.EndRequest? { ExitStaysAnswering(s, a.l, a.response, l); }
  }

  lemma ExitStaysAnswering(s: System, k: nat, response: Data, l: nat)
    requires Answering(s, k)
    ensures Leaving(FinishRequest(s, k, response), l) <==> Leaving(s, l)
  {
  }

  lemma LeavingStep(s: System, a: Action, l: nat)
    requires Enabled(s, a) && Inv(s)
    ensures Leaving(Next(s, a), l) <==>
            Leaving(s, l) || a == Stop(l, false) || (a == Frame(l, EndFrame) && Stopping(s, l) && Settled(s, l))
  {
    if a.Frame? {
      if a.l == l { assert CounterInv(s, l); }
    } else if a.Stop? {
    } else {
      ExitStays(s, a, l);
    }
  }

  lemma StoppingStep(s: System, a: Action, l: nat)
    requires Enabled(s, a)
    ensures Stopping(Next(s, a), l) <==> Stopping(s, l) || a == Stop(l, true)
  {
  }

  lemma ExitedStep(s: System, a: Action, l: nat)
    requires Enabled(s, a) && (l < |s.loops| && s.loops[l].phase.Exited? ==> Leaving(s, l))
    ensures l < |Next(s, a).loops| && Next(s, a).loops[l].phase.Exited? ==> Leaving(Next(s, a), l)
  {
  }

  /** Action k asks the loop to leave: a stop without delay, or a frame's end with a stop asked for and no call open. */
  ghost predicate LeavesAt(states: seq<System>, actions: seq<Action>, k: nat, l: nat)
    requires Trace(states, actions) && k < |actions|
  {
    || actions[k] == Stop(l, false)
    || (actions[k] == Frame(l, EndFrame) && (exists j :: 0 <= j < k && actions[j] == Stop(l, true))
        && Settled(states[k], l))
  }

  lemma {:induction false} StoppingMeans(states: seq<System>, actions: seq<Action>, n: nat, l: nat)
    requires Trace(states, actions) && n <= |actions|
    ensures Stopping(states[n], l) <==> exists j :: 0 <= j < n && actions[j] == Stop(l, true)
    decreases n
  {
    if n == 0 {
    } else {
      StoppingMeans(states, actions, n - 1, l);
      StoppingStep(states[n - 1], actions[n - 1], l);
    }
  }

  /** The loop was asked to leave before action n. */
  ghost predicate Asked(states: seq<System>, actions: seq<Action>, n: nat, l: nat)
    requires Trace(states, actions) && n <= |actions|
  {
    exists k :: 0 <= k < n && LeavesAt(states, actions, k, l)
  }

  lemma AskedStep(states: seq<System>, actions: seq<Action>, n: nat, l: nat)
    requires Trace(states, actions) && n < |actions|
    ensures Asked(states, actions, n + 1, l) <==> Asked(states, actions, n, l) || LeavesAt(states, actions, n, l)
  {
  }

  lemma LeavesNow(states: seq<System>, actions: seq<Action>, n: nat, l: nat)
    requires Trace(states, actions) && n < |actions|
    ensures LeavesAt(states, actions, n, l) <==>
            || actions[n] == Stop(l, false)
            || (actions[n] == Frame(l, EndFrame) && Stopping(states[n], l) && Settled(states[n], l))
  {
    StoppingMeans(states, actions, n, l);
  }

  /**
    In every run a loop is about to leave exactly if it was told to at once, or if a frame of it has ended after it
    was told to stop when idle, with every call made to it matched by a callback run on it.
   */
  lemma {:induction false} LeavesIff(states: seq<System>, actions: seq<Action>, n: nat, l: nat)
    requires Trace(states, actions) && n <= |actions|
    ensures Leaving(states[n], l) <==> Asked(states, actions, n, l)
    decreases n
  {
    if n == 0 {
    } else {
      var s, a := states[n - 1], actions[n - 1];
      LeavesIff(states, actions, n - 1, l);
      TraceRuns(states, actions, n - 1);
      ReachableInv(s);
      LeavingStep(s, a, l);
      LeavesNow(states, actions, n - 1, l);
      AskedStep(states, actions, n - 1, l);
    }
  }

  lemma {:induction false} LeftWasLeaving(states: seq<System>, actions: seq<Action>, n: nat, l: nat)
    requires Trace(states, actions) && n <= |actions| && l < |states[n].loops| && states[n].loops[l].phase.Exited?
    ensures Leaving(states[n], l)
    decreases n
  {
    if n == 0 {
    } else {
      if l < |states[n - 1].loops| && states[n - 1].loops[l].phase.Exited? {
        LeftWasLeaving(states, actions, n - 1, l);
      }
      ExitedStep(states[n - 1], actions[n - 1], l);
    }
  }

  /**
    In every run, when a loop has left or is about to without having been told to leave at once: there was a frame's
    end at which its calls were settled, and then none of its own callbacks was outstanding if and only if it was
    called exactly as often as it called.
   */
  lemma LeftAfterStop(states: seq<System>, actions: seq<Action>, n: nat, l: nat)
    requires Trace(states, actions) && n <= |actions| && l < |states[n].loops|
    requires states[n].loops[l].exitRequested || states[n].loops[l].phase.Exited?
    requires forall i | 0 <= i < n :: actions[i] != Stop(l, false)
    ensures exists k :: 0 <= k < n && LeavesAt(states, actions, k, l) && actions[k] == Frame(l, EndFrame)
              && (InFlight(states[k].loops, From(l + 1)) == 0 <==>
                  Number(states[k].issued, From(l + 1)) == Number(states[k].issued, To(l)))
  {
    if states[n].loops[l].phase.Exited? { LeftWasLeaving(states, actions, n, l); }
    LeavesIff(states, actions, n, l);
    var k :| 0 <= k < n && LeavesAt(states, actions, k, l);
    TraceRuns(states, actions, k);
    ReachableInv(states[k]);
    assert Conserved(states[k], From(l + 1));
  }

  /** With calls to itself only, a loop's calls are settled exactly if none of its callbacks is outstanding. */
  lemma SelfSettled(states: seq<System>, actions: seq<Action>, k: nat, l: nat)
    requires Trace(states, actions) && k <= |actions| && forall i | 0 <= i < |actions| :: SelfCall(actions[i])
    ensures Settled(states[k], l) <==> InFlight(states[k].loops, From(l + 1)) == 0
  {
    TraceRuns(states, actions, k);
    ReachableInv(states[k]);
    SelfRun(START, actions[..k], states[k]);
    SelfNumbers(states[k].issued, l);
    assert Conserved(states[k], From(l + 1));
  }

  /**
    In every run in which loops call only themselves, a loop that was not told to leave at once has left, or is
    about to, exactly if some frame of it ended after it was told to stop with none of its callbacks outstanding.
   */
  lemma SelfCallersLeaveClean(states: seq<System>, actions: seq<Action>, n: nat, l: nat)
    requires Trace(states, actions) && n <= |actions| && l < |states[n].loops|
    requires forall i | 0 <= i < |actions| :: SelfCall(actions[i]) && actions[i] != Stop(l, false)
    ensures states[n].loops[l].exitRequested <==>
            exists k :: 0 <= k < n && actions[k] == Frame(l, EndFrame) && InFlight(states[k].loops, From(l + 1)) == 0
                        && exists j :: 0 <= j < k && actions[j] == Stop(l, true)
    ensures states[n].loops[l].phase.Exited? ==> states[n].loops[l].exitRequested
  {
    if states[n].loops[l].phase.Exited? { LeftWasLeaving(states, actions, n, l); }
    LeavesIff(states, actions, n, l);
    forall k | 0 <= k < n
      ensures LeavesAt(states, actions, k, l) <==>
              actions[k] == Frame(l, EndFrame) && InFlight(states[k].loops, From(l + 1)) == 0
              && exists j :: 0 <= j < k && actions[j] == Stop(l, true)
    {
      SelfSettled(states, actions, k, l);
    }
  }

  /** A loop between frames with nothing to do. */
  predicate Unoccupied(loop: Loop) {
    Between(loop) && loop.asyncPosts == [] && loop.asyncRequests == [] && loop.asyncResponses == []
  }

  lemma FrameReaches(s: System, l: nat, loop: Loop, step: FrameStep)
    requires l < |s.loops| && Reaches(s, Set(s, l, loop)) && loop.hand.None? && FrameEnabled(loop, step)
    ensures Reaches(s, Set(s, l, FrameNext(loop, step)))
  {
    var s1 := Set(s, l, loop);
    assert Next(s1, Frame(l, step)) == Set(s, l, FrameNext(loop, step));
    ReachesNext(s, s1, Frame(l, step));
  }

  /** And it does leave: within one more frame if it was told to stop, has nothing to do and its calls are settled. */
  lemma IdleLoopLeaves(s: System, l: nat)
    requires Reachable(s) && l < |s.loops| && Unoccupied(s.loops[l]) && Stopping(s, l) && Settled(s, l)
    ensures exists s' :: Reaches(s, s') && l < |s'.loops| && s'.loops[l].phase.Exited?
  {
    ReachableInv(s);
    assert CounterInv(s, l);
    var loop := s.loops[l];
    ReachesSelf(s);
    assert Set(s, l, loop) == s;
    FrameReaches(s, l, loop, BeginFrame);
    FrameReaches(s, l, loop.(phase := Posts([])), MoveRequests);
    FrameReaches(s, l, loop.(phase := Requests([], None)), MoveResponses);
    FrameReaches(s, l, loop.(phase := Responses([])), BeginFrameLogic);
    FrameReaches(s, l, loop.(phase := FrameLogic), EndFrame);
    FrameReaches(s, l, loop.(exitRequested := true), Exit);
  }
}
