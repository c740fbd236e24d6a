/**
  Whole runs of the event loops with every state in view: what becomes of posts, requests and responses from the
  action that begins them to the step that handles them, and when a loop asked to stop leaves.
 */
module LoopTraces {
  import opened Wrappers
  import opened Sequences
  import opened LoopProtocol

  /** The states that the actions lead through, the first before any action. */
  ghost predicate Trace(states: seq<System>, actions: seq<Action>) {
    && |states| == |actions| + 1 && states[0] == START
    && forall i :: 0 <= i < |actions| ==> Enabled(states[i], actions[i]) && states[i + 1] == Next(states[i], actions[i])
  }

  lemma Shorter(states: seq<System>, actions: seq<Action>)
    requires Trace(states, actions) && actions != []
    ensures Trace(states[..|actions|], actions[..|actions| - 1])
  {
  }

  lemma {:induction false} RunSnoc(s: System, actions: seq<Action>, s1: System, a: Action)
    requires Run(s, actions, s1) && Enabled(s1, a)
    ensures Run(s, actions + [a], Next(s1, a))
    decreases |actions|
  {
    if actions == [] {
      assert ([] + [a])[1..] == [] && ([] + [a])[0] == a;
    } else {
      RunSnoc(Next(s, actions[0]), actions[1..], s1, a);
      assert (actions + [a])[1..] == actions[1..] + [a];
    }
  }

  /** Every state of a trace is reached by the actions before it. */
  lemma {:induction false} TraceRuns(states: seq<System>, actions: seq<Action>, k: nat)
    requires Trace(states, actions) && k <= |actions|
    ensures Run(START, actions[..k], states[k]) && Reachable(states[k])
    decreases k
  {
    if k == 0 {
      assert actions[..0] == [] && Run(START, [], START);
    } else {
      TraceRuns(states, actions, k - 1);
      RunSnoc(START, actions[..k - 1], states[k - 1], actions[k - 1]);
      assert actions[..k - 1] + [actions[k - 1]] == actions[..k];
    }
  }

  /** And every run has its states. */
  lemma {:induction false} RunTraced(s: System, actions: seq<Action>, s': System) returns (states: seq<System>)
    requires Run(s, actions, s')
    ensures |states| == |actions| + 1 && states[0] == s && states[|actions|] == s'
    ensures forall i :: 0 <= i < |actions| ==>
              Enabled(states[i], actions[i]) && states[i + 1] == Next(states[i], actions[i])
    decreases |actions|
  {
    if actions == [] {
      states := [s];
    } else {
      var more := RunTraced(Next(s, actions[0]), actions[1..], s');
      states := [s] + more;
      forall i | 0 <= i < |actions|
        ensures Enabled(states[i], actions[i]) && states[i + 1] == Next(states[i], actions[i])
      {
        if i > 0 { assert states[i] == more[i - 1] && actions[i] == actions[1..][i - 1] && states[i + 1] == more[i]; }
      }
    }
  }

  // ------------------------------------------------------------------ steps that leave posts and requests alone

  predicate SamePosts(a: Loop, b: Loop) {
    b.asyncPosts == a.asyncPosts && (b.phase == a.phase || (!a.phase.Posts? && !b.phase.Posts?))
  }

  predicate SameRequests(a: Loop, b: Loop) {
    && b.asyncRequests == a.asyncRequests
    && (b.phase == a.phase || (a.phase.Requests? && b.phase.Requests? && b.phase.batch == a.phase.batch)
        || (!a.phase.Requests? && !b.phase.Requests?))
  }

  lemma BeginCallKeeps(s: System, l: nat, ctx: Context, k: nat)
    requires l < |s.loops| && ctx.target < |s.loops| && k < |s.loops|
    ensures var loop := BeginCall(s, l, ctx).loops[k]; SamePosts(s.loops[k], loop) && SameRequests(s.loops[k], loop)
  {
  }

  lemma FinishRequestKeeps(s: System, l: nat, response: Data, k: nat)
    requires Answering(s, l) && k < |s.loops|
    ensures var loop := FinishRequest(s, l, response).loops[k];
            SamePosts(s.loops[k], loop) && SameRequests(s.loops[k], loop)
  {
  }

  lemma StartCallbackKeeps(s: System, l: nat, k: nat)
    requires l < |s.loops| && s.loops[l].phase.Responses? && s.loops[l].phase.batch != [] && k < |s.loops|
    ensures var loop := StartCallback(s, l).loops[k]; SamePosts(s.loops[k], loop) && SameRequests(s.loops[k], loop)
  {
  }

  lemma StopKeeps(s: System, t: nat, whenIdle: bool, k: nat)
    requires t < |s.loops| && k < |s.loops|
    ensures var loop := Next(s, Stop(t, whenIdle)).loops[k];
            SamePosts(s.loops[k], loop) && SameRequests(s.loops[k], loop)
  {
  }

  lemma StepKeeps(s: System, a: Action, k: nat)
    requires Enabled(s, a) && (a.BeginAsync? || a.EndRequest? || a.RunCallback? || a.Stop?) && k < |s.loops|
    ensures |Next(s, a).loops| == |s.loops|
    ensures var loop := Next(s, a).loops[k]; SamePosts(s.loops[k], loop) && SameRequests(s.loops[k], loop)
  {
    match a
    case BeginAsync(l, target, cmd, data, hasHandler) =>
      BeginCallKeeps(s, l, Context(l + 1, cmd, data, [], hasHandler, target, |s.issued|), k);
    case EndRequest(l, response) => FinishRequestKeeps(s, l, response, k);
    case RunCallback(l) => StartCallbackKeeps(s, l, k);
    case Stop(t, whenIdle) => StopKeeps(s, t, whenIdle, k);
  }

  // ------------------------------------------------------------------ posts

  /** The data that an action posts to a loop. */
  function NewPost(a: Action, l: nat): seq<Data> {
    match a case Post(t, data) => (if t == l then [data] else []) case _ => []
  }

  function Posted(actions: seq<Action>, l: nat): seq<Data> {
    if actions == [] then []
    else Posted(actions[..|actions| - 1], l) + NewPost(actions[|actions| - 1], l)
  }

  /** The data that an action hands to the post handler of a loop. */
  function DonePost(s: System, a: Action, l: nat): seq<Data>
    requires Enabled(s, a)
  {
    if a == Frame(l, HandlePost) then [s.loops[l].phase.posts[0]] else []
  }

  ghost function PostsHandled(states: seq<System>, actions: seq<Action>, l: nat): seq<Data>
    requires Trace(states, actions)
    decreases |actions|
  {
    if actions == [] then []
    else
      var n := |actions| - 1;
      Shorter(states, actions);
      PostsHandled(states[..n + 1], actions[..n], l) + DonePost(states[n], actions[n], l)
  }

  function LoopPosts(loop: Loop): seq<Data> {
    (if loop.phase.Posts? then loop.phase.posts else []) + loop.asyncPosts
  }

  /** Posts that wait for their handler, oldest first. */
  function PostsWaiting(s: System, l: nat): seq<Data> {
    if l < |s.loops| then LoopPosts(s.loops[l]) else []
  }

  lemma FramePosts(loop: Loop, step: FrameStep)
    requires FrameEnabled(loop, step)
    ensures LoopPosts(loop) ==
            (if step.HandlePost? then [loop.phase.posts[0]] else []) + LoopPosts(FrameNext(loop, step))
  {
  }

  lemma SendKeepsPosts(s: System, a: Action, l: nat)
    requires Enabled(s, a) && (a.EndAsync? || a.ExternalAsync?) && l < |s.loops|
    ensures |Next(s, a).loops| == |s.loops| && SamePosts(s.loops[l], Next(s, a).loops[l])
  {
  }

  /** Only posting, and the loop's own frame, change what waits. */
  lemma PostsStay(s: System, a: Action, l: nat)
    requires Enabled(s, a) && !a.Post? && !a.Frame?
    ensures PostsWaiting(Next(s, a), l) == PostsWaiting(s, l)
  {
    if a.NewLoop? {
      assert LoopPosts(NEW_LOOP) == [];
    } else if a.EndAsync? || a.ExternalAsync? {
      if l < |s.loops| { SendKeepsPosts(s, a, l); }
    } else {
      if l < |s.loops| { StepKeeps(s, a, l); }
    }
  }

  lemma FrameStepPosts(s: System, k: nat, step: FrameStep, l: nat)
    requires Enabled(s, Frame(k, step))
    ensures PostsWaiting(s, l) == DonePost(s, Frame(k, step), l) + PostsWaiting(Next(s, Frame(k, step)), l)
  {
    if k == l { FramePosts(s.loops[k], step); }
  }

  lemma PostPosts(s: System, u: nat, data: Data, l: nat)
    requires u < |s.loops|
    ensures PostsWaiting(s, l) + NewPost(Post(u, data), l) == PostsWaiting(Next(s, Post(u, data)), l)
  {
    if u == l {
      Append(if s.loops[l].phase.Posts? then s.loops[l].phase.posts else [], s.loops[l].asyncPosts, [data]);
    }
  }

  lemma PostsStep(s: System, a: Action, l: nat)
    requires Enabled(s, a)
    ensures PostsWaiting(s, l) + NewPost(a, l) == DonePost(s, a, l) + PostsWaiting(Next(s, a), l)
  {
    if a.Frame? {
      FrameStepPosts(s, a.l, a.step, l);
    } else if a.Post? {
      PostPosts(s, a.target, a.data, l);
    } else {
      PostsStay(s, a, l);
    }
  }

  /** In every run a loop handles the data posted to it, each once and in order, and the rest is waiting in order. */
  lemma {:induction false} PostsInOrder(states: seq<System>, actions: seq<Action>, l: nat)
    requires Trace(states, actions)
    ensures Posted(actions, l) == PostsHandled(states, actions, l) + PostsWaiting(states[|actions|], l)
    decreases |actions|
  {
    if actions == [] {
    } else {
      var n := |actions| - 1;
      Shorter(states, actions);
      PostsInOrder(states[..n + 1], actions[..n], l);
      PostsStep(states[n], actions[n], l);
      PassedOn(Posted(actions[..n], l), PostsHandled(states[..n + 1], actions[..n], l), PostsWaiting(states[n], l),
        NewPost(actions[n], l), DonePost(states[n], actions[n], l), PostsWaiting(states[n + 1], l));
    }
  }

  // ------------------------------------------------------------------ requests

  /** A call as its handler gets it: who calls, and with what. */
  datatype Call = Call(callerId: nat, cmd: nat, data: Data, hasHandler: bool)

  function CallOf(ctx: Context): Call {
    Call(ctx.callerId, ctx.cmd, ctx.request, ctx.hasHandler)
  }

  function CallsOf(cs: seq<Context>): seq<Call> {
    seq(|cs|, i requires 0 <= i < |cs| => CallOf(cs[i]))
  }

  /** The call that loop l began last. */
  function LastBegun(actions: seq<Action>, l: nat): Option<Action> {
    if actions == [] then None
    else
      var a := actions[|actions| - 1];
      if a.BeginAsync? && a.l == l then Some(a) else LastBegun(actions[..|actions| - 1], l)
  }

  /** The call that an action sends to loop t, as the actions say. */
  function NewCall(before: seq<Action>, a: Action, t: nat): seq<Call> {
    match a
    case ExternalAsync(target, cmd, data, hasHandler) =>
      if target == t then [Call(0, cmd, data, hasHandler)] else []
    case EndAsync(l) =>
      (match LastBegun(before, l)
       case Some(BeginAsync(_, target, cmd, data, hasHandler)) =>
         if target == t then [Call(l + 1, cmd, data, hasHandler)] else []
       case _ => [])
    case _ => []
  }

  function Made(actions: seq<Action>, t: nat): seq<Call> {
    if actions == [] then []
    else
      var n := |actions| - 1;
      Made(actions[..n], t) + NewCall(actions[..n], actions[n], t)
  }

  /** The call that an action hands to the handler of loop t. */
  function DoneCall(s: System, a: Action, t: nat): seq<Call>
    requires Enabled(s, a)
  {
    if a == Frame(t, BeginRequest) then [CallOf(s.loops[t].phase.batch[0])] else []
  }

  ghost function CallsHandled(states: seq<System>, actions: seq<Action>, t: nat): seq<Call>
    requires Trace(states, actions)
    decreases |actions|
  {
    if actions == [] then []
    else
      var n := |actions| - 1;
      Shorter(states, actions);
      CallsHandled(states[..n + 1], actions[..n], t) + DoneCall(states[n], actions[n], t)
  }

  function LoopCalls(loop: Loop): seq<Call> {
    (if loop.phase.Requests? then CallsOf(loop.phase.batch) else []) + CallsOf(loop.asyncRequests)
  }

  /** Calls that wait for their handler, oldest first. */
  function CallsWaiting(s: System, t: nat): seq<Call> {
    if t < |s.loops| then LoopCalls(s.loops[t]) else []
  }

  /** The call in the hand of a loop's thread is the one it began last. */
  ghost predicate InHand(s: System, actions: seq<Action>, l: nat) {
    l < |s.loops| && s.loops[l].hand.Some? ==>
      var ctx := s.loops[l].hand.value;
      LastBegun(actions, l) == Some(BeginAsync(l, ctx.target, ctx.cmd, ctx.request, ctx.hasHandler))
      && ctx.callerId == l + 1
  }

  /** Only beginning and sending a call change what a thread has in hand. */
  lemma HandStays(s: System, a: Action, l: nat)
    requires Enabled(s, a) && !(a.BeginAsync? && a.l == l) && !a.NewLoop? && l < |s.loops|
    ensures l < |Next(s, a).loops| && (Next(s, a).loops[l].hand == s.loops[l].hand || Next(s, a).loops[l].hand.None?)
  {
  }

  lemma HandStep(s: System, before: seq<Action>, a: Action, l: nat)
    requires Enabled(s, a) && InHand(s, before, l)
    ensures InHand(Next(s, a), before + [a], l)
  {
    assert (before + [a])[..|before|] == before;
    if l < |s.loops| && !(a.BeginAsync? && a.l == l) && !a.NewLoop? { HandStays(s, a, l); }
  }

  lemma {:induction false} HandKnown(states: seq<System>, actions: seq<Action>, k: nat, l: nat)
    requires Trace(states, actions) && k <= |actions|
    ensures InHand(states[k], actions[..k], l)
    decreases k
  {
    if k == 0 {
    } else {
      HandKnown(states, actions, k - 1, l);
      HandStep(states[k - 1], actions[..k - 1], actions[k - 1], l);
      assert actions[..k - 1] + [actions[k - 1]] == actions[..k];
    }
  }

  lemma FrameCalls(loop: Loop, step: FrameStep)
    requires FrameEnabled(loop, step)
    ensures LoopCalls(loop) ==
            (if step.BeginRequest? then [CallOf(loop.phase.batch[0])] else []) + LoopCalls(FrameNext(loop, step))
  {
    if step.BeginRequest? {
      var batch := loop.phase.batch;
      assert CallsOf(batch) == [CallOf(batch[0])] + CallsOf(batch[1..]);
      Append([CallOf(batch[0])], CallsOf(batch[1..]), CallsOf(loop.asyncRequests));
    } else if step.MoveRequests? {
      assert CallsOf([]) == [];
    }
  }

  lemma CallsAppend(loop: Loop, ctx: Context)
    ensures LoopCalls(loop.(asyncRequests := loop.asyncRequests + [ctx])) == LoopCalls(loop) + [CallOf(ctx)]
  {
    assert CallsOf(loop.asyncRequests + [ctx]) == CallsOf(loop.asyncRequests) + [CallOf(ctx)];
    Append(if loop.phase.Requests? then CallsOf(loop.phase.batch) else [], CallsOf(loop.asyncRequests), [CallOf(ctx)]);
  }

  lemma SameLoopCalls(a: Loop, b: Loop)
    requires SameRequests(a, b)
    ensures LoopCalls(a) == LoopCalls(b)
  {
  }

  lemma PostKeepsCalls(s: System, u: nat, data: Data, t: nat)
    requires u < |s.loops| && t < |s.loops|
    ensures SameRequests(s.loops[t], Next(s, Post(u, data)).loops[t])
  {
  }

  lemma CallsStay(s: System, a: Action, t: nat)
    requires Enabled(s, a) && !a.ExternalAsync? && !a.EndAsync? && !a.Frame?
    ensures CallsWaiting(Next(s, a), t) == CallsWaiting(s, t)
  {
    if a.NewLoop? {
      assert LoopCalls(NEW_LOOP) == [];
    } else if t < |s.loops| {
      if a.Post? { PostKeepsCalls(s, a.target, a.data, t); } else { StepKeeps(s, a, t); }
      SameLoopCalls(s.loops[t], Next(s, a).loops[t]);
    }
  }

  lemma HandCalls(s: System, l: nat, t: nat)
    requires l < |s.loops|
    ensures CallsWaiting(Set(s, l, s.loops[l].(hand := None)), t) == CallsWaiting(s, t)
  {
  }

  lemma PushCalls(s: System, ctx: Context, u: nat, t: nat)
    requires u < |s.loops|
    ensures CallsWaiting(PushRequest(s, u, ctx), t) == CallsWaiting(s, t) + if u == t then [CallOf(ctx)] else []
  {
    CallsAppend(s.loops[u], ctx);
  }

  lemma SendCalls(s: System, before: seq<Action>, l: nat, t: nat)
    requires Enabled(s, EndAsync(l)) && InHand(s, before, l)
    ensures CallsWaiting(s, t) + NewCall(before, EndAsync(l), t) == CallsWaiting(SendCall(s, l), t)
  {
    var ctx := s.loops[l].hand.value;
    var s1 := Set(s, l, s.loops[l].(hand := None));
    HandCalls(s, l, t);
    PushCalls(s1, ctx, ctx.target, t);
    assert NewCall(before, EndAsync(l), t) == if ctx.target == t then [CallOf(ctx)] else [];
  }

  lemma FrameStepCalls(s: System, l: nat, step: FrameStep, t: nat)
    requires Enabled(s, Frame(l, step))
    ensures CallsWaiting(s, t) == DoneCall(s, Frame(l, step), t) + CallsWaiting(Next(s, Frame(l, step)), t)
  {
    if l == t {
      FrameCalls(s.loops[l], step);
    } else {
      Nothing(CallsWaiting(s, t));
    }
  }

  lemma CallsStep(s: System, before: seq<Action>, a: Action, t: nat)
    requires Enabled(s, a) && (a.EndAsync? ==> InHand(s, before, a.l))
    ensures CallsWaiting(s, t) + NewCall(before, a, t) == DoneCall(s, a, t) + CallsWaiting(Next(s, a), t)
  {
    Nothing(CallsWaiting(s, t));
    Nothing(CallsWaiting(Next(s, a), t));
    if a.Frame? {
      FrameStepCalls(s, a.l, a.step, t);
    } else if a.EndAsync? {
      SendCalls(s, before, a.l, t);
    } else if a.ExternalAsync? {
      PushCalls(s, Context(0, a.cmd, a.data, [], a.hasHandler, a.target, 0), a.target, t);
    } else {
      CallsStay(s, a, t);
    }
  }

  /**
    In every run the handler of a loop is called with the command, data and caller of every call made to the loop,
    from loops or other threads, each once and in the order they were sent; the rest is waiting in that order.
   */
  lemma {:induction false} CallsInOrder(states: seq<System>, actions: seq<Action>, t: nat)
    requires Trace(states, actions)
    ensures Made(actions, t) == CallsHandled(states, actions, t) + CallsWaiting(states[|actions|], t)
    decreases |actions|
  {
    if actions == [] {
    } else {
      var n := |actions| - 1;
      Shorter(states, actions);
      CallsInOrder(states[..n + 1], actions[..n], t);
      if actions[n].EndAsync? { HandKnown(states, actions, n, actions[n].l); }
      CallsStep(states[n], actions[..n], actions[n], t);
      PassedOn(Made(actions[..n], t), CallsHandled(states[..n + 1], actions[..n], t), CallsWaiting(states[n], t),
        NewCall(actions[..n], actions[n], t), DoneCall(states[n], actions[n], t), CallsWaiting(states[n + 1], t));
    }
  }

  // ------------------------------------------------------------------ responses

  /** At action k the handler of the call's target has finished the call with the response that ctx carries. */
  ghost predicate GivenAt(states: seq<System>, actions: seq<Action>, k: nat, ctx: Context)
    requires Trace(states, actions) && k < |actions|
  {
    && actions[k].EndRequest? && actions[k].l == ctx.target
    && states[k].loops[actions[k].l].phase.current.value.(response := actions[k].response) == ctx
  }

  ghost predicate Given(states: seq<System>, actions: seq<Action>, n: nat, ctx: Context)
    requires Trace(states, actions) && n <= |actions|
  {
    exists k :: 0 <= k < n && GivenAt(states, actions, k, ctx)
  }

  ghost predicate AllGiven(states: seq<System>, actions: seq<Action>, n: nat, cs: seq<Context>)
    requires Trace(states, actions) && n <= |actions|
  {
    forall i :: 0 <= i < |cs| ==> Given(states, actions, n, cs[i])
  }

  ghost predicate LoopGiven(states: seq<System>, actions: seq<Action>, n: nat, loop: Loop)
    requires Trace(states, actions) && n <= |actions|
  {
    && AllGiven(states, actions, n, loop.asyncResponses)
    && (loop.phase.Responses? ==> AllGiven(states, actions, n, loop.phase.batch))
  }

  lemma GivenLater(states: seq<System>, actions: seq<Action>, n: nat, loop: Loop)
    requires Trace(states, actions) && n < |actions| && LoopGiven(states, actions, n, loop)
    ensures LoopGiven(states, actions, n + 1, loop)
  {
  }

  lemma FrameGiven(states: seq<System>, actions: seq<Action>, n: nat, loop: Loop, step: FrameStep)
    requires Trace(states, actions) && n <= |actions| && LoopGiven(states, actions, n, loop) && FrameEnabled(loop, step)
    ensures LoopGiven(states, actions, n, FrameNext(loop, step))
  {
  }

  /** Only finishing requests, running callbacks and frames change the responses of a loop. */
  lemma ResponsesStay(s: System, a: Action, l: nat)
    requires Enabled(s, a) && !a.EndRequest? && !a.RunCallback? && !a.Frame? && l < |Next(s, a).loops|
    ensures var loop := Next(s, a).loops[l];
            if l < |s.loops| then
              loop.asyncResponses == s.loops[l].asyncResponses && loop.phase == s.loops[l].phase
            else loop == NEW_LOOP
  {
  }

  lemma EndRequestGiven(states: seq<System>, actions: seq<Action>, n: nat, l: nat)
    requires Trace(states, actions) && n < |actions| && actions[n].EndRequest? && l < |states[n].loops|
    requires LoopGiven(states, actions, n + 1, states[n].loops[l])
    ensures l < |states[n + 1].loops| && LoopGiven(states, actions, n + 1, states[n + 1].loops[l])
  {
    var s, t, response := states[n], actions[n].l, actions[n].response;
    TraceRuns(states, actions, n);
    ReachableInv(s);
    assert LoopInv(s, t);
    FinishRequestIs(s, t, response);
    var ctx := s.loops[t].phase.current.value.(response := response);
    assert GivenAt(states, actions, n, ctx);
    if Awaited(ctx) && l == ctx.callerId - 1 {
      assert states[n + 1].loops[l].asyncResponses == s.loops[l].asyncResponses + [ctx];
    }
  }

  lemma {:induction false} ResponsesGiven(states: seq<System>, actions: seq<Action>, n: nat, l: nat)
    requires Trace(states, actions) && n <= |actions| && l < |states[n].loops|
    ensures LoopGiven(states, actions, n, states[n].loops[l])
    decreases n
  {
    if n == 0 {
    } else {
      var s, a := states[n - 1], actions[n - 1];
      if l < |s.loops| {
        ResponsesGiven(states, actions, n - 1, l);
        GivenLater(states, actions, n - 1, s.loops[l]);
        if a.EndRequest? {
          EndRequestGiven(states, actions, n - 1, l);
        } else if a.Frame? {
          if a.l == l { FrameGiven(states, actions, n, s.loops[l], a.step); }
        } else if !a.RunCallback? {
          ResponsesStay(s, a, l);
        }
      } else {
        ResponsesStay(s, a, l);
      }
    }
  }

  /** In every run a callback gets the response that the handler of its call gave to that very call. */
  lemma CallbackGetsResponse(states: seq<System>, actions: seq<Action>, n: nat)
    requires Trace(states, actions) && n < |actions| && actions[n].RunCallback?
    ensures Given(states, actions, n, states[n].loops[actions[n].l].phase.batch[0])
  {
    ResponsesGiven(states, actions, n, actions[n].l);
  }
}
