/**
  Progress of the call protocol: a loop that is left alone gets through its frame, and as long as no loop has
  left, every state can be continued until no call is under way.
 */
module LoopProgress {
  import opened Wrappers
  import opened LoopProtocol
  import opened LoopTraces

  ghost predicate Reaches(s: System, s': System) {
    exists actions :: Run(s, actions, s')
  }

  lemma ReachesSelf(s: System)
    ensures Reaches(s, s)
  {
    assert Run(s, [], s);
  }

  lemma ReachesNext(s: System, s1: System, a: Action)
    requires Reaches(s, s1) && Enabled(s1, a)
    ensures Reaches(s, Next(s1, a))
  {
    var actions :| Run(s, actions, s1);
    RunSnoc(s, actions, s1, a);
  }

  // ------------------------------------------------------------------ one loop alone

  /** What a loop's thread does next when its handlers make no calls and answer with nothing. */
  function OwnAction(s: System, l: nat): Action
    requires l < |s.loops|
  {
    var loop := s.loops[l];
    if loop.hand.Some? then EndAsync(l)
    else
      match loop.phase
      case Waiting => Frame(l, BeginFrame)
      case Posts(posts) => Frame(l, if posts == [] then MoveRequests else HandlePost)
      case Requests(batch, current) =>
        if current.Some? then EndRequest(l, []) else Frame(l, if batch == [] then MoveResponses else BeginRequest)
      case Responses(batch) => if batch == [] then Frame(l, BeginFrameLogic) else RunCallback(l)
      case FrameLogic => Frame(l, EndFrame)
      case Exited => Frame(l, BeginFrame)
  }

  function Part(p: Phase): nat {
    match p
    case Waiting => 0
    case FrameLogic => 1
    case Responses(_) => 2
    case Requests(_, _) => 3
    case Posts(_) => 4
    case Exited => 5
  }

  function Rest(p: Phase): nat {
    match p
    case Responses(batch) => |batch|
    case Requests(batch, current) => 2 * |batch| + if current.Some? then 1 else 0
    case Posts(posts) => |posts|
    case _ => 0
  }

  /** The call in hand and the calls that wait for this loop's handler are done. */
  predicate NoCalls(loop: Loop) {
    loop.asyncRequests == [] && (loop.phase.Requests? ==> loop.phase.batch == [] && loop.phase.current.None?)
  }

  /** The other loops stay where they are, and at most get responses. */
  ghost predicate OthersKept(s: System, s': System, l: nat) {
    && |s'.loops| == |s.loops|
    && forall k | 0 <= k < |s.loops| && k != l ::
         && s'.loops[k].phase == s.loops[k].phase && s'.loops[k].hand == s.loops[k].hand
         && s'.loops[k].asyncRequests == s.loops[k].asyncRequests && s'.loops[k].asyncPosts == s.loops[k].asyncPosts
  }

  ghost predicate NoneAnswered(s: System, s': System, l: nat) {
    && |s'.loops| == |s.loops|
    && forall k | 0 <= k < |s.loops| && k != l :: s'.loops[k].asyncResponses == s.loops[k].asyncResponses
  }

  predicate Busy(loop: Loop) {
    loop.hand.None? && !loop.phase.Waiting? && !loop.phase.Exited?
  }

  /** A loop between two frames. */
  predicate Between(loop: Loop) {
    loop.hand.None? && loop.phase.Waiting?
  }

  /** What one step, or several, of a loop within its frame do to its queues. */
  ghost predicate Went(loop: Loop, loop': Loop) {
    && loop'.hand.None? && !loop'.phase.Exited? && Part(loop'.phase) <= Part(loop.phase)
    && loop'.asyncPosts == loop.asyncPosts
    && (loop'.asyncRequests == loop.asyncRequests || loop'.asyncRequests == [])
    && (Part(loop'.phase) < 4 == Part(loop.phase) ==> loop'.asyncRequests == [])
    && (Part(loop'.phase) < 3 <= Part(loop.phase) ==> loop'.asyncResponses == [])
    && (Part(loop.phase) < 3 ==> loop'.asyncResponses == loop.asyncResponses)
    && (NoCalls(loop) ==> NoCalls(loop'))
  }

  lemma WentOn(a: Loop, b: Loop, c: Loop)
    requires Went(a, b) && Went(b, c)
    ensures Went(a, c)
  {
  }

  predicate Nearer(p: Phase, p': Phase) {
    Part(p') < Part(p) || (Part(p') == Part(p) && Rest(p') < Rest(p))
  }

  /** A step of a loop within its frame brings it nearer to the end of the frame. */
  lemma OwnStep(s: System, l: nat)
    requires l < |s.loops| && Busy(s.loops[l])
    ensures Enabled(s, OwnAction(s, l))
    ensures var s' := Next(s, OwnAction(s, l));
            && OthersKept(s, s', l) && (NoCalls(s.loops[l]) ==> NoneAnswered(s, s', l))
            && Went(s.loops[l], s'.loops[l]) && Nearer(s.loops[l].phase, s'.loops[l].phase)
  {
    if s.loops[l].phase.Requests? && s.loops[l].phase.current.Some? {
      AnswerStep(s, l);
    } else if s.loops[l].phase.Responses? && s.loops[l].phase.batch != [] {
    } else {
      FrameWent(s.loops[l], OwnAction(s, l).step);
    }
  }

  lemma FrameWent(loop: Loop, step: FrameStep)
    requires Busy(loop) && FrameEnabled(loop, step)
    ensures Went(loop, FrameNext(loop, step)) && Nearer(loop.phase, FrameNext(loop, step).phase)
  {
  }

  lemma AnswerStep(s: System, l: nat)
    requires Answering(s, l) && s.loops[l].hand.None?
    ensures var s' := FinishRequest(s, l, []);
            && OthersKept(s, s', l) && !NoCalls(s.loops[l])
            && Went(s.loops[l], s'.loops[l]) && Nearer(s.loops[l].phase, s'.loops[l].phase)
  {
  }

  /** A loop that is left alone gets to the end of its frame. */
  lemma {:induction false} FrameEnds(s: System, l: nat) returns (s': System)
    requires l < |s.loops| && (Busy(s.loops[l]) || Between(s.loops[l]))
    ensures Reaches(s, s') && OthersKept(s, s', l) && Between(s'.loops[l]) && Went(s.loops[l], s'.loops[l])
    ensures NoCalls(s.loops[l]) ==> NoneAnswered(s, s', l)
    decreases Part(s.loops[l].phase), Rest(s.loops[l].phase)
  {
    ReachesSelf(s);
    if Between(s.loops[l]) {
      s' := s;
    } else {
      OwnStep(s, l);
      var s1 := Next(s, OwnAction(s, l));
      ReachesNext(s, s, OwnAction(s, l));
      s' := FrameEnds(s1, l);
      ReachesOn(s, s1, s');
      WentOn(s.loops[l], s1.loops[l], s'.loops[l]);
    }
  }

  lemma ReachesOn(s: System, s1: System, s2: System)
    requires Reaches(s, s1) && Reaches(s1, s2)
    ensures Reaches(s, s2)
  {
    var first :| Run(s, first, s1);
    var more :| Run(s1, more, s2);
    RunOn(s, first, s1, more, s2);
  }

  lemma {:induction false} RunOn(s: System, first: seq<Action>, s1: System, more: seq<Action>, s2: System)
    requires Run(s, first, s1) && Run(s1, more, s2)
    ensures Run(s, first + more, s2)
    decreases |first|
  {
    if first == [] {
      assert first + more == more;
    } else {
      RunOn(Next(s, first[0]), first[1..], s1, more, s2);
      assert (first + more)[1..] == first[1..] + more;
    }
  }

  /** One frame of a loop that is left alone: its queues are empty afterwards. */
  lemma FrameAlone(s: System, l: nat) returns (s': System)
    requires l < |s.loops| && Between(s.loops[l])
    ensures Reaches(s, s') && OthersKept(s, s', l) && Between(s'.loops[l])
    ensures s'.loops[l].asyncPosts == [] && s'.loops[l].asyncRequests == [] && s'.loops[l].asyncResponses == []
    ensures s.loops[l].asyncRequests == [] ==> NoneAnswered(s, s', l)
  {
    var s1 := Next(s, Frame(l, BeginFrame));
    ReachesSelf(s);
    ReachesNext(s, s, Frame(l, BeginFrame));
    s' := FrameEnds(s1, l);
    ReachesOn(s, s1, s');
  }

  // ------------------------------------------------------------------ all loops in turn

  ghost predicate NoneLeft(s: System) {
    forall l | 0 <= l < |s.loops| :: !s.loops[l].phase.Exited?
  }

  ghost predicate AllBetween(s: System, n: nat) {
    n <= |s.loops| && forall l | 0 <= l < n :: Between(s.loops[l])
  }

  /** The thread of loop l sends the call it has in hand and ends its frame. */
  lemma Settles(s: System, l: nat) returns (s': System)
    requires l < |s.loops| && Inv(s) && !s.loops[l].phase.Exited?
    ensures Reaches(s, s') && |s'.loops| == |s.loops| && Between(s'.loops[l])
    ensures forall k | 0 <= k < |s.loops| && k != l ::
              s'.loops[k].phase == s.loops[k].phase && s'.loops[k].hand == s.loops[k].hand
  {
    var s1 := s;
    ReachesSelf(s);
    if s.loops[l].hand.Some? {
      assert LoopInv(s, l);
      ReachesNext(s, s, EndAsync(l));
      s1 := Next(s, EndAsync(l));
    }
    s' := FrameEnds(s1, l);
    ReachesOn(s, s1, s');
  }

  lemma ReachesInv(s: System, s': System)
    requires Inv(s) && Reaches(s, s')
    ensures Inv(s')
  {
    var actions :| Run(s, actions, s');
    RunInv(s, actions, s');
  }

  lemma {:induction false} AllSettle(s: System, n: nat) returns (s': System)
    requires Inv(s) && NoneLeft(s) && AllBetween(s, n)
    ensures Reaches(s, s') && AllBetween(s', |s'.loops|) && |s'.loops| == |s.loops|
    decreases |s.loops| - n
  {
    if n == |s.loops| {
      ReachesSelf(s);
      s' := s;
    } else {
      var s1 := Settles(s, n);
      ReachesInv(s, s1);
      s' := AllSettle(s1, n + 1);
      ReachesOn(s, s1, s');
    }
  }

  /** The first n loops have no posts and requests waiting, or nothing at all. */
  ghost predicate Emptied(s: System, n: nat) {
    n <= |s.loops| && forall l | 0 <= l < n :: s.loops[l].asyncPosts == [] && s.loops[l].asyncRequests == []
  }

  ghost predicate CalledBack(s: System, n: nat) {
    n <= |s.loops| && forall l | 0 <= l < n :: s.loops[l].asyncResponses == []
  }

  lemma {:induction false} AllAnswer(s: System, n: nat) returns (s': System)
    requires AllBetween(s, |s.loops|) && Emptied(s, n)
    ensures Reaches(s, s') && |s'.loops| == |s.loops| && AllBetween(s', |s'.loops|) && Emptied(s', |s'.loops|)
    decreases |s.loops| - n
  {
    if n == |s.loops| {
      ReachesSelf(s);
      s' := s;
    } else {
      var s1 := FrameAlone(s, n);
      s' := AllAnswer(s1, n + 1);
      ReachesOn(s, s1, s');
    }
  }

  lemma {:induction false} AllCallBack(s: System, n: nat) returns (s': System)
    requires AllBetween(s, |s.loops|) && Emptied(s, |s.loops|) && CalledBack(s, n)
    ensures Reaches(s, s') && |s'.loops| == |s.loops| && AllBetween(s', |s'.loops|)
    ensures Emptied(s', |s'.loops|) && CalledBack(s', |s'.loops|)
    decreases |s.loops| - n
  {
    if n == |s.loops| {
      ReachesSelf(s);
      s' := s;
    } else {
      var s1 := FrameAlone(s, n);
      s' := AllCallBack(s1, n + 1);
      ReachesOn(s, s1, s');
    }
  }

  lemma {:induction false} NothingHeld(loops: seq<Loop>, w: Which)
    requires forall l | 0 <= l < |loops| ::
               Between(loops[l]) && loops[l].asyncRequests == [] && loops[l].asyncResponses == []
    ensures InFlight(loops, w) == 0
  {
    if loops == [] {
    } else {
      NothingHeld(loops[..|loops| - 1], w);
      assert Held(loops[|loops| - 1], w) == 0;
    }
  }

  /**
    No call is ever stuck: from every reachable state in which no loop has left, the loops' own frames lead to a
    state with no call under way, in which every callback has run, and no post is waiting.
   */
  lemma CallsCanFinish(s: System)
    requires Reachable(s) && NoneLeft(s)
    ensures exists s' ::
              && Reaches(s, s') && (forall w :: InFlight(s'.loops, w) == 0 && Number(s'.issued, w) == Number(s'.ran, w))
              && (forall l :: PostsWaiting(s', l) == [])
  {
    ReachableInv(s);
    var s1 := AllSettle(s, 0);
    var s2 := AllAnswer(s1, 0);
    var s' := AllCallBack(s2, 0);
    ReachesOn(s, s1, s2);
    ReachesOn(s, s2, s');
    ReachesInv(s, s');
    forall w ensures InFlight(s'.loops, w) == 0 && Number(s'.issued, w) == Number(s'.ran, w) {
      NothingHeld(s'.loops, w);
      assert Conserved(s', w);
    }
    assert forall l :: PostsWaiting(s', l) == [];
  }
}
