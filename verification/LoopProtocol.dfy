/**
  The asynchronous call protocol between event loops: requests travel to the target loop,
  responses travel back to the calling loop, and the callback runs there.

  Loops run on threads of their own and interleave arbitrarily.  Each access to a
  SafeQueue or to the atomic pending counter is one step; async() is therefore two steps,
  with the context in the caller's hand in between.
 */
module LoopProtocol {
  import opened Wrappers
  import opened Sequences

  type Data = seq<int>

  /**
    An asynchronous call.  callerId is 0 when the calling thread runs no loop; hasHandler says that a
    callback was passed.  target and serial are history: the loop called, and the call's number.
   */
  datatype Context = Context(
    callerId: nat, cmd: nat, request: Data, response: Data, hasHandler: bool, target: nat, serial: nat)

  /** Where the loop's thread stands in frameHandler(). */
  datatype Phase =
    | Waiting
    | Posts(posts: seq<Data>)
    | Requests(batch: seq<Context>, current: Option<Context>)
    | Responses(batch: seq<Context>)
    | FrameLogic
    | Exited

  datatype Loop = Loop(
    asyncPosts: seq<Data>,
    asyncRequests: seq<Context>,
    asyncResponses: seq<Context>,
    pending: int,
    isStopping: bool,
    exitRequested: bool,
    phase: Phase,
    hand: Option<Context>)

  /**
    Loop i has the id i + 1.  issued and ran are history: calls begun with a caller and a callback, and callbacks
    started.
   */
  datatype System = System(loops: seq<Loop>, issued: seq<Context>, ran: seq<Context>)

  datatype Action =
    | NewLoop
    | BeginAsync(l: nat, target: nat, cmd: nat, data: Data, hasHandler: bool)
    | EndAsync(l: nat)
    | ExternalAsync(target: nat, cmd: nat, data: Data, hasHandler: bool)
    | Post(target: nat, data: Data)
    | Stop(target: nat, whenIdle: bool)
    | Frame(l: nat, step: FrameStep)
    | EndRequest(l: nat, response: Data)
    | RunCallback(l: nat)

  /** Steps of frameHandler() that touch only the loop's own state. */
  datatype FrameStep =
    BeginFrame | HandlePost | MoveRequests | BeginRequest | MoveResponses | BeginFrameLogic | EndFrame | Exit

  const NEW_LOOP := Loop([], [], [], 0, false, false, Waiting, None)

  const START := System([], [], [])

  predicate Enabled(s: System, a: Action) {
    match a
    case NewLoop => true
    case BeginAsync(l, target, _, _, _) => l < |s.loops| && target < |s.loops| && s.loops[l].hand.None?
    case EndAsync(l) => l < |s.loops| && s.loops[l].hand.Some? && s.loops[l].hand.value.target < |s.loops|
    case ExternalAsync(target, _, _, _) => target < |s.loops|
    case Post(target, _) => target < |s.loops|
    case Stop(target, _) => target < |s.loops|
    case Frame(l, step) => l < |s.loops| && s.loops[l].hand.None? && FrameEnabled(s.loops[l], step)
    case EndRequest(l, _) =>
      l < |s.loops| && s.loops[l].hand.None? && s.loops[l].phase.Requests? && s.loops[l].phase.current.Some?
    case RunCallback(l) =>
      l < |s.loops| && s.loops[l].hand.None? && s.loops[l].phase.Responses? && s.loops[l].phase.batch != []
  }

  predicate FrameEnabled(loop: Loop, step: FrameStep) {
    match step
    case BeginFrame => loop.phase.Waiting?
    case HandlePost => loop.phase.Posts? && loop.phase.posts != []
    case MoveRequests => loop.phase == Posts([])
    case BeginRequest => loop.phase.Requests? && loop.phase.current.None? && loop.phase.batch != []
    case MoveResponses => loop.phase == Requests([], None)
    case BeginFrameLogic => loop.phase == Responses([])
    case EndFrame => loop.phase.FrameLogic?
    case Exit => loop.phase.Waiting? && loop.exitRequested
  }

  function Set(s: System, i: nat, loop: Loop): System
    requires i < |s.loops|
  {
    s.(loops := s.loops[i := loop])
  }

  function PushRequest(s: System, t: nat, ctx: Context): System
    requires t < |s.loops|
  {
    Set(s, t, s.loops[t].(asyncRequests := s.loops[t].asyncRequests + [ctx]))
  }

  function Count(s: System, t: nat, d: int): System
    requires t < |s.loops|
  {
    Set(s, t, s.loops[t].(pending := s.loops[t].pending + d))
  }

  /** Loop::get */
  function Get(s: System, id: nat): Option<nat> {
    if 1 <= id <= |s.loops| then Some(id - 1) else None
  }

  function Next(s: System, a: Action): System
    requires Enabled(s, a)
  {
    match a
    case NewLoop => AddLoop(s)
    case BeginAsync(l, target, cmd, data, hasHandler) =>
      BeginCall(s, l, Context(l + 1, cmd, data, [], hasHandler, target, |s.issued|))
    case EndAsync(l) => SendCall(s, l)
    case ExternalAsync(target, cmd, data, hasHandler) =>
      PushRequest(s, target, Context(0, cmd, data, [], hasHandler, target, 0))
    case Post(target, data) =>
      Set(s, target, s.loops[target].(asyncPosts := s.loops[target].asyncPosts + [data]))
    case Stop(target, whenIdle) =>
      if whenIdle then Set(s, target, s.loops[target].(isStopping := true))
      else Set(s, target, s.loops[target].(exitRequested := true))
    case EndRequest(l, response) => FinishRequest(s, l, response)
    case RunCallback(l) => StartCallback(s, l)
    case Frame(l, step) => Set(s, l, FrameNext(s.loops[l], step))
  }

  /** The first half of async() on a thread that runs loop l. */
  function BeginCall(s: System, l: nat, ctx: Context): System
    requires l < |s.loops| && ctx.target < |s.loops|
  {
    var s1 := if ctx.hasHandler then Count(s, ctx.target, 1).(issued := s.issued + [ctx]) else s;
    Set(s1, l, s1.loops[l].(hand := Some(ctx)))
  }

  /** The second half of async(). */
  function SendCall(s: System, l: nat): System
    requires l < |s.loops| && s.loops[l].hand.Some? && s.loops[l].hand.value.target < |s.loops|
  {
    var ctx := s.loops[l].hand.value;
    PushRequest(Set(s, l, s.loops[l].(hand := None)), ctx.target, ctx)
  }

  function StartCallback(s: System, l: nat): System
    requires l < |s.loops| && s.loops[l].phase.Responses? && s.loops[l].phase.batch != []
  {
    var loop := s.loops[l];
    Set(s, l, loop.(pending := loop.pending - 1, phase := Responses(loop.phase.batch[1..]))).(
      ran := s.ran + [loop.phase.batch[0]])
  }

  function FrameNext(loop: Loop, step: FrameStep): Loop
    requires FrameEnabled(loop, step)
  {
    match step
    case BeginFrame => loop.(phase := Posts(loop.asyncPosts), asyncPosts := [])
    case HandlePost => loop.(phase := Posts(loop.phase.posts[1..]))
    case MoveRequests => loop.(phase := Requests(loop.asyncRequests, None), asyncRequests := [])
    case BeginRequest => loop.(phase := Requests(loop.phase.batch[1..], Some(loop.phase.batch[0])))
    case MoveResponses => loop.(phase := Responses(loop.asyncResponses), asyncResponses := [])
    case BeginFrameLogic => loop.(phase := FrameLogic)
    case EndFrame =>
      loop.(phase := Waiting, exitRequested := loop.exitRequested || (loop.isStopping && loop.pending == 0))
    case Exit => loop.(phase := Exited)
  }

  /** The handler has filled in the response; it goes back if someone is waiting for it. */
  function FinishRequest(s: System, l: nat, response: Data): System
    requires l < |s.loops| && s.loops[l].phase.Requests? && s.loops[l].phase.current.Some?
  {
    var ctx := s.loops[l].phase.current.value.(response := response);
    var s1 := Set(s, l, s.loops[l].(phase := Requests(s.loops[l].phase.batch, None)));
    match Get(s, ctx.callerId)
    case None => s1
    case Some(from) =>
      if ctx.hasHandler then
        Set(s1, from, s1.loops[from].(asyncResponses := s1.loops[from].asyncResponses + [ctx]))
      else s1
  }

  // ------------------------------------------------------------------ counting

  /** A selection of calls: all of them, those made by one loop, or those made to one loop. */
  datatype Which = All | From(id: nat) | To(target: nat)

  predicate Awaited(ctx: Context) {
    ctx.callerId != 0 && ctx.hasHandler
  }

  function One(ctx: Context, w: Which): nat {
    if Awaited(ctx) && (match w case All => true case From(id) => ctx.callerId == id case To(t) => ctx.target == t)
    then 1 else 0
  }

  function Number(cs: seq<Context>, w: Which): nat {
    if cs == [] then 0 else Number(cs[1..], w) + One(cs[0], w)
  }

  function OneOf(c: Option<Context>, w: Which): nat {
    match c case None => 0 case Some(ctx) => One(ctx, w)
  }

  function NumberInPhase(p: Phase, w: Which): nat {
    match p
    case Requests(batch, current) => Number(batch, w) + OneOf(current, w)
    case Responses(batch) => Number(batch, w)
    case _ => 0
  }

  /** Calls that are somewhere in this loop's queues, in its thread's lists or in its thread's hand. */
  function Held(loop: Loop, w: Which): nat {
    Number(loop.asyncRequests, w) + Number(loop.asyncResponses, w) + NumberInPhase(loop.phase, w) + OneOf(loop.hand, w)
  }

  function InFlight(loops: seq<Loop>, w: Which): nat {
    if loops == [] then 0 else InFlight(loops[..|loops| - 1], w) + Held(loops[|loops| - 1], w)
  }

  function TotalPending(loops: seq<Loop>): int {
    if loops == [] then 0 else TotalPending(loops[..|loops| - 1]) + loops[|loops| - 1].pending
  }

  lemma {:induction false} NumberAppend(cs: seq<Context>, ctx: Context, w: Which)
    ensures Number(cs + [ctx], w) == Number(cs, w) + One(ctx, w)
  {
    if cs == [] {
    } else {
      NumberAppend(cs[1..], ctx, w);
      assert (cs + [ctx])[1..] == cs[1..] + [ctx];
    }
  }

  lemma {:induction false} SumsUpdate(loops: seq<Loop>, i: nat, loop: Loop, w: Which)
    requires i < |loops|
    ensures InFlight(loops[i := loop], w) == InFlight(loops, w) - Held(loops[i], w) + Held(loop, w)
    ensures TotalPending(loops[i := loop]) == TotalPending(loops) - loops[i].pending + loop.pending
  {
    var n := |loops| - 1;
    if i == n {
      assert loops[i := loop][..n] == loops[..n];
    } else {
      SumsUpdate(loops[..n], i, loop, w);
      assert loops[i := loop][..n] == loops[..n][i := loop];
    }
  }

  // ------------------------------------------------------------------ invariant

  /** A call on its way to loop t. */
  predicate Outbound(s: System, ctx: Context, t: nat) {
    ctx.target == t && ctx.callerId <= |s.loops|
  }

  /** A response waiting for loop l. */
  predicate Inbound(s: System, ctx: Context, l: nat) {
    Awaited(ctx) && ctx.callerId == l + 1 && ctx.target < |s.loops|
  }

  ghost predicate LoopInv(s: System, l: nat)
    requires l < |s.loops|
  {
    var loop := s.loops[l];
    && (forall ctx | ctx in loop.asyncRequests :: Outbound(s, ctx, l))
    && (forall ctx | ctx in loop.asyncResponses :: Inbound(s, ctx, l))
    && (loop.phase.Requests? ==>
          && (forall ctx | ctx in loop.phase.batch :: Outbound(s, ctx, l))
          && (loop.phase.current.Some? ==> Outbound(s, loop.phase.current.value, l)))
    && (loop.phase.Responses? ==> forall ctx | ctx in loop.phase.batch :: Inbound(s, ctx, l))
    && (loop.hand.Some? ==> loop.hand.value.callerId == l + 1 && loop.hand.value.target < |s.loops|)
  }

  /** Calls issued are calls answered plus calls still somewhere, however one selects them. */
  ghost predicate Conserved(s: System, w: Which) {
    Number(s.issued, w) == Number(s.ran, w) + InFlight(s.loops, w)
  }

  /** The counter of a loop: calls made to it, minus callbacks run on it. */
  ghost predicate CounterInv(s: System, l: nat)
    requires l < |s.loops|
  {
    s.loops[l].pending == Number(s.issued, To(l)) - Number(s.ran, From(l + 1))
  }

  // ------------------------------------------------------------------ order

  function SerialOf(ctx: Context, id: nat, t: nat): seq<nat> {
    if Awaited(ctx) && ctx.callerId == id && ctx.target == t then [ctx.serial] else []
  }

  /** The numbers of the calls from loop id to loop t, in order of appearance. */
  function Serials(cs: seq<Context>, id: nat, t: nat): seq<nat> {
    if cs == [] then [] else SerialOf(cs[0], id, t) + Serials(cs[1..], id, t)
  }

  function MaybeSerial(c: Option<Context>, id: nat, t: nat): seq<nat> {
    match c case None => [] case Some(ctx) => SerialOf(ctx, id, t)
  }

  /** Answered calls that wait for their callback, oldest first. */
  function ResponseSide(loop: Loop, id: nat, t: nat): seq<nat> {
    (if loop.phase.Responses? then Serials(loop.phase.batch, id, t) else []) + Serials(loop.asyncResponses, id, t)
  }

  /** Calls that wait for the target, oldest first. */
  function RequestSide(loop: Loop, id: nat, t: nat): seq<nat> {
    (if loop.phase.Requests? then MaybeSerial(loop.phase.current, id, t) + Serials(loop.phase.batch, id, t) else [])
    + Serials(loop.asyncRequests, id, t)
  }

  /** The calls from one loop to another, in the places they pass through. */
  datatype Chain = Chain(issued: seq<nat>, ran: seq<nat>, back: seq<nat>, out: seq<nat>, hand: seq<nat>)

  function ChainOf(s: System, c: nat, t: nat): Chain
    requires c < |s.loops| && t < |s.loops|
  {
    Chain(Serials(s.issued, c + 1, t), Serials(s.ran, c + 1, t), ResponseSide(s.loops[c], c + 1, t),
          RequestSide(s.loops[t], c + 1, t), MaybeSerial(s.loops[c].hand, c + 1, t))
  }

  /** Callbacks run, then responses, then requests, then the call being made: exactly the calls issued, in order. */
  ghost predicate Whole(ch: Chain) {
    ch.issued == ch.ran + ch.back + ch.out + ch.hand
  }

  // A call enters the chain at its end, leaves the hand, turns back, and is answered.

  lemma WholeCall(ch: Chain, ch': Chain, x: seq<nat>)
    requires Whole(ch) && ch' == ch.(issued := ch.issued + x, hand := ch.hand + x)
    ensures Whole(ch')
  {
  }

  lemma WholeSend(ch: Chain, ch': Chain)
    requires Whole(ch) && ch' == ch.(out := ch.out + ch.hand, hand := [])
    ensures Whole(ch')
  {
  }

  lemma WholeReply(ch: Chain, ch': Chain, x: seq<nat>)
    requires Whole(ch) && ch.out == x + ch'.out && ch' == ch.(back := ch.back + x, out := ch'.out)
    ensures Whole(ch')
  {
  }

  lemma WholeRun(ch: Chain, ch': Chain, x: seq<nat>)
    requires Whole(ch) && ch.back == x + ch'.back && ch' == ch.(ran := ch.ran + x, back := ch'.back)
    ensures Whole(ch')
  {
  }

  lemma WholePrefix(ch: Chain)
    requires Whole(ch)
    ensures ch.ran <= ch.issued && ch.issued[|ch.ran|..] == ch.back + ch.out + ch.hand
  {
    assert ch.issued == ch.ran + (ch.back + ch.out + ch.hand);
  }

  lemma {:induction false} SerialsAppend(cs: seq<Context>, ctx: Context, id: nat, t: nat)
    ensures Serials(cs + [ctx], id, t) == Serials(cs, id, t) + SerialOf(ctx, id, t)
  {
    if cs == [] {
    } else {
      SerialsAppend(cs[1..], ctx, id, t);
      assert (cs + [ctx])[1..] == cs[1..] + [ctx];
      Append(SerialOf(cs[0], id, t), Serials(cs[1..], id, t), SerialOf(ctx, id, t));
    }
  }

  lemma {:induction false} SerialsNone(cs: seq<Context>, id: nat, t: nat)
    requires forall ctx | ctx in cs :: SerialOf(ctx, id, t) == []
    ensures Serials(cs, id, t) == []
  {
    if cs == [] {
    } else {
      SerialsNone(cs[1..], id, t);
    }
  }

  lemma {:induction false} NumberNone(cs: seq<Context>, w: Which)
    requires forall ctx | ctx in cs :: One(ctx, w) == 0
    ensures Number(cs, w) == 0
  {
    if cs == [] {
    } else {
      NumberNone(cs[1..], w);
    }
  }

  // ------------------------------------------------------------------ preservation

  predicate Known(s: System, ctx: Context) {
    Awaited(ctx) && ctx.callerId <= |s.loops| && ctx.target < |s.loops|
  }

  ghost predicate AllKnown(s: System) {
    (forall ctx | ctx in s.issued :: Known(s, ctx)) && (forall ctx | ctx in s.ran :: Known(s, ctx))
  }

  /** Calls are numbered in the order they are issued. */
  ghost predicate Numbered(cs: seq<Context>, base: nat) {
    forall k | 0 <= k < |cs| :: cs[k].serial == base + k
  }

  ghost predicate Ascending(ns: seq<nat>) {
    forall i, j | 0 <= i < j < |ns| :: ns[i] < ns[j]
  }

  lemma {:induction false} SerialsAscend(cs: seq<Context>, base: nat, id: nat, t: nat)
    requires Numbered(cs, base)
    ensures Ascending(Serials(cs, id, t))
    ensures forall i | 0 <= i < |Serials(cs, id, t)| :: Serials(cs, id, t)[i] >= base
  {
    if cs == [] {
    } else {
      SerialsAscend(cs[1..], base + 1, id, t);
      assert cs[0].serial == base + 0;
    }
  }

  /** The counters add up to the calls issued and not yet answered. */
  ghost predicate Balanced(s: System) {
    TotalPending(s.loops) == Number(s.issued, All) - Number(s.ran, All)
  }

  ghost predicate Inv(s: System) {
    && (forall l: nat | l < |s.loops| :: LoopInv(s, l))
    && (forall l: nat | l < |s.loops| :: CounterInv(s, l))
    && AllKnown(s)
    && Numbered(s.issued, 0)
    && (forall w :: Conserved(s, w))
    && Balanced(s)
    && (forall c: nat, t: nat | c < |s.loops| && t < |s.loops| :: Whole(ChainOf(s, c, t)))
  }

  // Steps inside one loop.

  lemma FrameKeepsNumbers(loop: Loop, step: FrameStep, w: Which)
    requires FrameEnabled(loop, step)
    ensures Held(FrameNext(loop, step), w) == Held(loop, w)
  {
  }

  lemma FrameKeepsResponses(loop: Loop, step: FrameStep, id: nat, t: nat)
    requires FrameEnabled(loop, step)
    ensures ResponseSide(FrameNext(loop, step), id, t) == ResponseSide(loop, id, t)
  {
    var responses := Serials(loop.asyncResponses, id, t);
    assert responses == [] + responses && responses == responses + [];
  }

  lemma FrameKeepsRequests(loop: Loop, step: FrameStep, id: nat, t: nat)
    requires FrameEnabled(loop, step)
    ensures RequestSide(FrameNext(loop, step), id, t) == RequestSide(loop, id, t)
  {
    var requests := Serials(loop.asyncRequests, id, t);
    if step.MoveRequests? {
      assert [] + requests == ([] + requests) + [];
    } else if step.BeginRequest? {
      var batch := loop.phase.batch;
      assert Serials(batch, id, t) == SerialOf(batch[0], id, t) + Serials(batch[1..], id, t);
      assert [] + Serials(batch, id, t) == Serials(batch, id, t);
    }
  }

  lemma FrameKeepsOwners(s: System, l: nat, step: FrameStep)
    requires l < |s.loops| && FrameEnabled(s.loops[l], step) && LoopInv(s, l)
    ensures LoopInv(Set(s, l, FrameNext(s.loops[l], step)), l)
  {
    var loop := s.loops[l];
    assert step.BeginRequest? ==> loop.phase.batch[0] in loop.phase.batch;
    assert step.BeginRequest? ==> forall ctx | ctx in loop.phase.batch[1..] :: ctx in loop.phase.batch;
  }

  /** The two versions of a loop hold the same calls in the same order. */
  ghost predicate SameCalls(a: Loop, b: Loop) {
    && a.pending == b.pending && a.hand == b.hand
    && (forall w :: Held(a, w) == Held(b, w))
    && (forall id: nat, t: nat :: ResponseSide(a, id, t) == ResponseSide(b, id, t))
    && (forall id: nat, t: nat :: RequestSide(a, id, t) == RequestSide(b, id, t))
  }

  lemma FrameKeepsCalls(loop: Loop, step: FrameStep)
    requires FrameEnabled(loop, step)
    ensures SameCalls(FrameNext(loop, step), loop)
  {
    forall w ensures Held(FrameNext(loop, step), w) == Held(loop, w) { FrameKeepsNumbers(loop, step, w); }
    forall id: nat, t: nat ensures ResponseSide(FrameNext(loop, step), id, t) == ResponseSide(loop, id, t) {
      FrameKeepsResponses(loop, step, id, t);
    }
    forall id: nat, t: nat ensures RequestSide(FrameNext(loop, step), id, t) == RequestSide(loop, id, t) {
      FrameKeepsRequests(loop, step, id, t);
    }
  }

  lemma LocalCounts(s: System, l: nat, loop: Loop, w: Which)
    requires l < |s.loops| && loop.pending == s.loops[l].pending && Held(loop, w) == Held(s.loops[l], w)
    ensures Conserved(s, w) ==> Conserved(Set(s, l, loop), w)
    ensures TotalPending(Set(s, l, loop).loops) == TotalPending(s.loops)
  {
    SumsUpdate(s.loops, l, loop, w);
  }

  lemma LocalLoop(s: System, l: nat, loop: Loop, k: nat)
    requires l < |s.loops| && loop.pending == s.loops[l].pending && LoopInv(Set(s, l, loop), l)
    requires k < |s.loops| && LoopInv(s, k) && CounterInv(s, k)
    ensures LoopInv(Set(s, l, loop), k) && CounterInv(Set(s, l, loop), k)
  {
  }

  lemma LocalChain(s: System, l: nat, loop: Loop, c: nat, t: nat)
    requires l < |s.loops| && SameCalls(loop, s.loops[l]) && c < |s.loops| && t < |s.loops|
    ensures ChainOf(Set(s, l, loop), c, t) == ChainOf(s, c, t)
  {
  }

  lemma LocalInv(s: System, l: nat, loop: Loop)
    requires Inv(s) && l < |s.loops| && SameCalls(loop, s.loops[l]) && LoopInv(Set(s, l, loop), l)
    ensures Inv(Set(s, l, loop))
  {
    var s' := Set(s, l, loop);
    forall w ensures Conserved(s', w) {
      assert Conserved(s, w);
      LocalCounts(s, l, loop, w);
    }
    LocalCounts(s, l, loop, All);
    forall k: nat | k < |s.loops| ensures LoopInv(s', k) && CounterInv(s', k) {
      assert LoopInv(s, k) && CounterInv(s, k);
      LocalLoop(s, l, loop, k);
    }
    forall c: nat, t: nat | c < |s.loops| && t < |s.loops| ensures Whole(ChainOf(s', c, t)) {
      assert Whole(ChainOf(s, c, t));
      LocalChain(s, l, loop, c, t);
    }
  }

  // A new loop.

  lemma NoResponses(s: System, c: nat, t: nat)
    requires c < |s.loops| <= t && LoopInv(s, c)
    ensures ResponseSide(s.loops[c], c + 1, t) == [] && MaybeSerial(s.loops[c].hand, c + 1, t) == []
  {
    var loop := s.loops[c];
    SerialsNone(loop.asyncResponses, c + 1, t);
    if loop.phase.Responses? { SerialsNone(loop.phase.batch, c + 1, t); }
  }

  lemma NoRequests(s: System, c: nat, t: nat)
    requires t < |s.loops| <= c && LoopInv(s, t)
    ensures RequestSide(s.loops[t], c + 1, t) == []
  {
    var loop := s.loops[t];
    SerialsNone(loop.asyncRequests, c + 1, t);
    if loop.phase.Requests? { SerialsNone(loop.phase.batch, c + 1, t); }
  }

  function AddLoop(s: System): System {
    s.(loops := s.loops + [NEW_LOOP])
  }

  lemma AddLoopChain(s: System, c: nat, t: nat)
    requires c <= |s.loops| && t <= |s.loops| && AllKnown(s)
    requires (c < |s.loops| ==> LoopInv(s, c)) && (t < |s.loops| ==> LoopInv(s, t))
    ensures ChainOf(AddLoop(s), c, t) ==
            if c < |s.loops| && t < |s.loops| then ChainOf(s, c, t) else Chain([], [], [], [], [])
  {
    if c == |s.loops| || t == |s.loops| {
      SerialsNone(s.issued, c + 1, t);
      SerialsNone(s.ran, c + 1, t);
      if c < |s.loops| { NoResponses(s, c, t); }
      if t < |s.loops| { NoRequests(s, c, t); }
    }
  }

  lemma AddLoopInv(s: System)
    requires Inv(s)
    ensures Inv(AddLoop(s))
  {
    var s', n := AddLoop(s), |s.loops|;
    assert s'.loops[..n] == s.loops;
    forall w ensures Conserved(s', w) {
      assert Conserved(s, w);
    }
    NumberNone(s.issued, To(n));
    NumberNone(s.ran, From(n + 1));
    forall k: nat | k < n + 1 ensures LoopInv(s', k) && CounterInv(s', k) {
      if k < n { assert LoopInv(s, k) && CounterInv(s, k); }
    }
    forall c: nat, t: nat | c < n + 1 && t < n + 1 ensures Whole(ChainOf(s', c, t)) {
      if c < n { assert LoopInv(s, c); }
      if t < n { assert LoopInv(s, t); }
      AddLoopChain(s, c, t);
      if c < n && t < n { assert Whole(ChainOf(s, c, t)); }
    }
  }

  // Making a call.

  lemma BeginCallCounts(s: System, l: nat, ctx: Context, w: Which)
    requires l < |s.loops| && ctx.target < |s.loops| && s.loops[l].hand.None? && ctx.callerId == l + 1
    requires Conserved(s, w) && Balanced(s)
    ensures Conserved(BeginCall(s, l, ctx), w) && Balanced(BeginCall(s, l, ctx))
  {
    var s1 := if ctx.hasHandler then Count(s, ctx.target, 1) else s;
    NumberAppend(s.issued, ctx, w);
    NumberAppend(s.issued, ctx, All);
    SumsUpdate(s.loops, ctx.target, Count(s, ctx.target, 1).loops[ctx.target], w);
    SumsUpdate(s1.loops, l, s1.loops[l].(hand := Some(ctx)), w);
    assert Held(s1.loops[l], w) == Held(s.loops[l], w);
    assert Held(s1.loops[l].(hand := Some(ctx)), w) == Held(s.loops[l], w) + One(ctx, w);
  }

  lemma BeginCallLoop(s: System, l: nat, ctx: Context, k: nat)
    requires l < |s.loops| && ctx.target < |s.loops| && ctx.callerId == l + 1
    requires k < |s.loops| && LoopInv(s, k) && CounterInv(s, k)
    ensures LoopInv(BeginCall(s, l, ctx), k) && CounterInv(BeginCall(s, l, ctx), k)
  {
    NumberAppend(s.issued, ctx, To(k));
  }

  lemma BeginCallChain(s: System, l: nat, ctx: Context, c: nat, t: nat)
    requires l < |s.loops| && ctx.target < |s.loops| && s.loops[l].hand.None? && ctx.callerId == l + 1
    requires c < |s.loops| && t < |s.loops|
    ensures var ch, x := ChainOf(s, c, t), SerialOf(ctx, c + 1, t);
            ChainOf(BeginCall(s, l, ctx), c, t) == ch.(issued := ch.issued + x, hand := ch.hand + x)
  {
    BeginCallSides(s, l, ctx, c, t);
    BeginCallEnds(s, l, ctx, c, t);
  }

  lemma BeginCallSides(s: System, l: nat, ctx: Context, c: nat, t: nat)
    requires l < |s.loops| && ctx.target < |s.loops| && c < |s.loops| && t < |s.loops|
    ensures var s' := BeginCall(s, l, ctx);
            && ResponseSide(s'.loops[c], c + 1, t) == ResponseSide(s.loops[c], c + 1, t)
            && RequestSide(s'.loops[t], c + 1, t) == RequestSide(s.loops[t], c + 1, t)
            && s'.ran == s.ran
  {
  }

  lemma BeginCallEnds(s: System, l: nat, ctx: Context, c: nat, t: nat)
    requires l < |s.loops| && ctx.target < |s.loops| && s.loops[l].hand.None? && ctx.callerId == l + 1
    requires c < |s.loops| && t < |s.loops|
    ensures var s', x := BeginCall(s, l, ctx), SerialOf(ctx, c + 1, t);
            && Serials(s'.issued, c + 1, t) == Serials(s.issued, c + 1, t) + x
            && MaybeSerial(s'.loops[c].hand, c + 1, t) == MaybeSerial(s.loops[c].hand, c + 1, t) + x
  {
    if ctx.hasHandler {
      SerialsAppend(s.issued, ctx, c + 1, t);
    } else {
      assert Serials(s.issued, c + 1, t) + [] == Serials(s.issued, c + 1, t);
    }
  }

  lemma BeginCallInv(s: System, l: nat, ctx: Context)
    requires Inv(s) && l < |s.loops| && ctx.target < |s.loops| && s.loops[l].hand.None?
    requires ctx.callerId == l + 1 && ctx.serial == |s.issued|
    ensures Inv(BeginCall(s, l, ctx))
  {
    var s' := BeginCall(s, l, ctx);
    forall w ensures Conserved(s', w) {
      assert Conserved(s, w);
      BeginCallCounts(s, l, ctx, w);
    }
    assert Conserved(s, All);
    BeginCallCounts(s, l, ctx, All);
    forall k: nat | k < |s.loops| ensures LoopInv(s', k) && CounterInv(s', k) {
      assert LoopInv(s, k) && CounterInv(s, k);
      BeginCallLoop(s, l, ctx, k);
    }
    forall c: nat, t: nat | c < |s.loops| && t < |s.loops| ensures Whole(ChainOf(s', c, t)) {
      assert Whole(ChainOf(s, c, t));
      BeginCallChain(s, l, ctx, c, t);
      WholeCall(ChainOf(s, c, t), ChainOf(s', c, t), SerialOf(ctx, c + 1, t));
    }
  }

  lemma PushRequestSums(s: System, t: nat, ctx: Context, w: Which)
    requires t < |s.loops|
    ensures InFlight(PushRequest(s, t, ctx).loops, w) == InFlight(s.loops, w) + One(ctx, w)
    ensures TotalPending(PushRequest(s, t, ctx).loops) == TotalPending(s.loops)
  {
    SumsUpdate(s.loops, t, PushRequest(s, t, ctx).loops[t], w);
    NumberAppend(s.loops[t].asyncRequests, ctx, w);
  }

  lemma PushRequestOwners(s: System, t: nat, ctx: Context, k: nat)
    requires t < |s.loops| && Outbound(s, ctx, t) && k < |s.loops| && LoopInv(s, k)
    ensures LoopInv(PushRequest(s, t, ctx), k)
  {
  }

  lemma RequestPushed(loop: Loop, ctx: Context, id: nat, t: nat)
    ensures RequestSide(loop.(asyncRequests := loop.asyncRequests + [ctx]), id, t) ==
            RequestSide(loop, id, t) + SerialOf(ctx, id, t)
  {
    SerialsAppend(loop.asyncRequests, ctx, id, t);
  }

  lemma PushRequestChain(s: System, u: nat, ctx: Context, c: nat, t: nat)
    requires u < |s.loops| && ctx.target == u && c < |s.loops| && t < |s.loops|
    ensures var ch := ChainOf(s, c, t);
            ChainOf(PushRequest(s, u, ctx), c, t) == ch.(out := ch.out + SerialOf(ctx, c + 1, t))
  {
    var out := RequestSide(s.loops[t], c + 1, t);
    if u == t {
      RequestPushed(s.loops[u], ctx, c + 1, t);
    } else {
      assert out + [] == out;
    }
  }

  lemma ExternalInv(s: System, u: nat, ctx: Context)
    requires Inv(s) && u < |s.loops| && ctx.target == u && ctx.callerId == 0
    ensures Inv(PushRequest(s, u, ctx))
  {
    var s' := PushRequest(s, u, ctx);
    forall w ensures Conserved(s', w) {
      assert Conserved(s, w);
      PushRequestSums(s, u, ctx, w);
    }
    PushRequestSums(s, u, ctx, All);
    forall k: nat | k < |s.loops| ensures LoopInv(s', k) && CounterInv(s', k) {
      assert LoopInv(s, k) && CounterInv(s, k);
      PushRequestOwners(s, u, ctx, k);
    }
    forall c: nat, t: nat | c < |s.loops| && t < |s.loops| ensures Whole(ChainOf(s', c, t)) {
      assert Whole(ChainOf(s, c, t));
      PushRequestChain(s, u, ctx, c, t);
      assert ChainOf(s, c, t).out + [] == ChainOf(s, c, t).out;
    }
  }

  lemma SendCallCounts(s: System, l: nat, w: Which)
    requires l < |s.loops| && s.loops[l].hand.Some? && s.loops[l].hand.value.target < |s.loops|
    ensures InFlight(SendCall(s, l).loops, w) == InFlight(s.loops, w)
    ensures TotalPending(SendCall(s, l).loops) == TotalPending(s.loops)
  {
    var ctx := s.loops[l].hand.value;
    var s1 := Set(s, l, s.loops[l].(hand := None));
    SumsUpdate(s.loops, l, s1.loops[l], w);
    PushRequestSums(s1, ctx.target, ctx, w);
  }

  lemma SendCallOwners(s: System, l: nat, k: nat)
    requires l < |s.loops| && s.loops[l].hand.Some? && LoopInv(s, l) && k < |s.loops| && LoopInv(s, k)
    ensures LoopInv(SendCall(s, l), k)
  {
    var s1 := Set(s, l, s.loops[l].(hand := None));
    assert LoopInv(s1, k);
    PushRequestOwners(s1, s.loops[l].hand.value.target, s.loops[l].hand.value, k);
  }

  lemma SendCallChain(s: System, l: nat, c: nat, t: nat)
    requires l < |s.loops| && s.loops[l].hand.Some? && LoopInv(s, l) && c < |s.loops| && t < |s.loops|
    ensures var ch := ChainOf(s, c, t);
            ChainOf(SendCall(s, l), c, t) == if c == l then ch.(out := ch.out + ch.hand, hand := []) else ch
  {
    var ctx := s.loops[l].hand.value;
    var s1 := Set(s, l, s.loops[l].(hand := None));
    PushRequestChain(s1, ctx.target, ctx, c, t);
    var ch := ChainOf(s, c, t);
    assert ChainOf(s1, c, t) == if c == l then ch.(hand := []) else ch;
    assert c != l ==> ch.out + SerialOf(ctx, c + 1, t) == ch.out;
  }

  lemma SendCallInv(s: System, l: nat)
    requires Inv(s) && l < |s.loops| && s.loops[l].hand.Some? && s.loops[l].hand.value.target < |s.loops|
    ensures Inv(SendCall(s, l))
  {
    var s' := SendCall(s, l);
    forall w ensures Conserved(s', w) {
      assert Conserved(s, w);
      SendCallCounts(s, l, w);
    }
    SendCallCounts(s, l, All);
    assert LoopInv(s, l);
    forall k: nat | k < |s.loops| ensures LoopInv(s', k) && CounterInv(s', k) {
      assert LoopInv(s, k) && CounterInv(s, k);
      SendCallOwners(s, l, k);
    }
    forall c: nat, t: nat | c < |s.loops| && t < |s.loops| ensures Whole(ChainOf(s', c, t)) {
      assert Whole(ChainOf(s, c, t));
      SendCallChain(s, l, c, t);
      if c == l { WholeSend(ChainOf(s, c, t), ChainOf(s', c, t)); }
    }
  }

  // Answering a call.

  ghost predicate Answering(s: System, l: nat) {
    l < |s.loops| && s.loops[l].phase.Requests? && s.loops[l].phase.current.Some?
  }

  lemma PushResponseSums(loops: seq<Loop>, from: nat, ctx: Context, w: Which)
    requires from < |loops|
    ensures var after := loops[from := loops[from].(asyncResponses := loops[from].asyncResponses + [ctx])];
            InFlight(after, w) == InFlight(loops, w) + One(ctx, w) && TotalPending(after) == TotalPending(loops)
  {
    SumsUpdate(loops, from, loops[from].(asyncResponses := loops[from].asyncResponses + [ctx]), w);
    NumberAppend(loops[from].asyncResponses, ctx, w);
  }

  /** The call in hand leaves the loop that answers it. */
  lemma AnsweredSums(loops: seq<Loop>, l: nat, w: Which)
    requires l < |loops| && loops[l].phase.Requests? && loops[l].phase.current.Some?
    ensures var after := loops[l := loops[l].(phase := Requests(loops[l].phase.batch, None))];
            && InFlight(after, w) == InFlight(loops, w) - One(loops[l].phase.current.value, w)
            && TotalPending(after) == TotalPending(loops)
  {
    SumsUpdate(loops, l, loops[l].(phase := Requests(loops[l].phase.batch, None)), w);
  }

  /** Loop l after its handler has answered the current call. */
  function WithoutCurrent(s: System, l: nat): System
    requires Answering(s, l)
  {
    Set(s, l, s.loops[l].(phase := Requests(s.loops[l].phase.batch, None)))
  }

  lemma FinishRequestIs(s: System, l: nat, response: Data)
    requires Answering(s, l) && LoopInv(s, l)
    ensures var ctx := s.loops[l].phase.current.value.(response := response); var s1 := WithoutCurrent(s, l);
            if Awaited(ctx) then
              var from := ctx.callerId - 1;
              && from < |s1.loops|
              && FinishRequest(s, l, response)
                 == Set(s1, from, s1.loops[from].(asyncResponses := s1.loops[from].asyncResponses + [ctx]))
            else FinishRequest(s, l, response) == s1
  {
  }

  lemma FinishRequestCounts(s: System, l: nat, response: Data, w: Which)
    requires Answering(s, l) && LoopInv(s, l)
    ensures InFlight(FinishRequest(s, l, response).loops, w) == InFlight(s.loops, w)
    ensures TotalPending(FinishRequest(s, l, response).loops) == TotalPending(s.loops)
  {
    var ctx := s.loops[l].phase.current.value.(response := response);
    FinishRequestIs(s, l, response);
    AnsweredSums(s.loops, l, w);
    assert One(s.loops[l].phase.current.value, w) == One(ctx, w);
    if Awaited(ctx) { PushResponseSums(WithoutCurrent(s, l).loops, ctx.callerId - 1, ctx, w); }
  }

  /** Loop l no longer has its current call; loop k is as it was. */
  lemma AnsweredOwners(s: System, l: nat, k: nat)
    requires Answering(s, l) && LoopInv(s, l) && k < |s.loops| && LoopInv(s, k)
    ensures LoopInv(Set(s, l, s.loops[l].(phase := Requests(s.loops[l].phase.batch, None))), k)
  {
  }

  lemma PushResponseOwners(s: System, from: nat, ctx: Context, k: nat)
    requires from < |s.loops| && Inbound(s, ctx, from) && k < |s.loops| && LoopInv(s, k)
    ensures LoopInv(Set(s, from, s.loops[from].(asyncResponses := s.loops[from].asyncResponses + [ctx])), k)
  {
  }

  lemma FinishRequestOwners(s: System, l: nat, response: Data, k: nat)
    requires Answering(s, l) && LoopInv(s, l) && k < |s.loops| && LoopInv(s, k)
    ensures LoopInv(FinishRequest(s, l, response), k)
    ensures FinishRequest(s, l, response).loops[k].pending == s.loops[k].pending
  {
    var ctx := s.loops[l].phase.current.value.(response := response);
    var s1 := Set(s, l, s.loops[l].(phase := Requests(s.loops[l].phase.batch, None)));
    AnsweredOwners(s, l, k);
    if Awaited(ctx) && ctx.callerId <= |s.loops| { PushResponseOwners(s1, ctx.callerId - 1, ctx, k); }
  }

  lemma ResponsePushed(loop: Loop, ctx: Context, id: nat, t: nat)
    ensures ResponseSide(loop.(asyncResponses := loop.asyncResponses + [ctx]), id, t) ==
            ResponseSide(loop, id, t) + SerialOf(ctx, id, t)
  {
    SerialsAppend(loop.asyncResponses, ctx, id, t);
  }

  lemma RequestFinished(loop: Loop, id: nat, t: nat)
    requires loop.phase.Requests? && loop.phase.current.Some?
    ensures RequestSide(loop, id, t) ==
            SerialOf(loop.phase.current.value, id, t)
            + RequestSide(loop.(phase := Requests(loop.phase.batch, None)), id, t)
  {
  }

  /** The current call of loop l, if it is one from loop c to loop t, turns from a request into a response. */
  lemma FinishRequestChain(s: System, l: nat, response: Data, c: nat, t: nat)
    requires Answering(s, l) && LoopInv(s, l) && c < |s.loops| && t < |s.loops|
    ensures var ch, ch' := ChainOf(s, c, t), ChainOf(FinishRequest(s, l, response), c, t);
            var x := SerialOf(s.loops[l].phase.current.value, c + 1, t);
            ch.out == x + ch'.out && ch' == ch.(back := ch.back + x, out := ch'.out)
  {
    FinishRequestBack(s, l, response, c, t);
    FinishRequestOut(s, l, response, c, t);
  }

  lemma FinishRequestBack(s: System, l: nat, response: Data, c: nat, t: nat)
    requires Answering(s, l) && LoopInv(s, l) && c < |s.loops| && t < |s.loops|
    ensures var s', x := FinishRequest(s, l, response), SerialOf(s.loops[l].phase.current.value, c + 1, t);
            && ResponseSide(s'.loops[c], c + 1, t) == ResponseSide(s.loops[c], c + 1, t) + x
            && s'.loops[c].hand == s.loops[c].hand
  {
    var ctx := s.loops[l].phase.current.value.(response := response);
    var s1 := Set(s, l, s.loops[l].(phase := Requests(s.loops[l].phase.batch, None)));
    assert ResponseSide(s1.loops[c], c + 1, t) == ResponseSide(s.loops[c], c + 1, t);
    if Awaited(ctx) && ctx.callerId == c + 1 {
      ResponsePushed(s1.loops[c], ctx, c + 1, t);
    } else {
      assert ResponseSide(s.loops[c], c + 1, t) + [] == ResponseSide(s.loops[c], c + 1, t);
    }
  }

  lemma FinishRequestOut(s: System, l: nat, response: Data, c: nat, t: nat)
    requires Answering(s, l) && LoopInv(s, l) && c < |s.loops| && t < |s.loops|
    ensures var s', x := FinishRequest(s, l, response), SerialOf(s.loops[l].phase.current.value, c + 1, t);
            RequestSide(s.loops[t], c + 1, t) == x + RequestSide(s'.loops[t], c + 1, t)
  {
    var s1 := Set(s, l, s.loops[l].(phase := Requests(s.loops[l].phase.batch, None)));
    var s' := FinishRequest(s, l, response);
    assert RequestSide(s'.loops[t], c + 1, t) == RequestSide(s1.loops[t], c + 1, t);
    if l == t {
      RequestFinished(s.loops[t], c + 1, t);
    } else {
      assert [] + RequestSide(s.loops[t], c + 1, t) == RequestSide(s.loops[t], c + 1, t);
    }
  }

  lemma FinishRequestInv(s: System, l: nat, response: Data)
    requires Inv(s) && Answering(s, l)
    ensures Inv(FinishRequest(s, l, response))
  {
    var s' := FinishRequest(s, l, response);
    assert LoopInv(s, l);
    forall w ensures Conserved(s', w) {
      assert Conserved(s, w);
      FinishRequestCounts(s, l, response, w);
    }
    FinishRequestCounts(s, l, response, All);
    forall k: nat | k < |s.loops| ensures LoopInv(s', k) && CounterInv(s', k) {
      assert LoopInv(s, k) && CounterInv(s, k);
      FinishRequestOwners(s, l, response, k);
    }
    forall c: nat, t: nat | c < |s.loops| && t < |s.loops| ensures Whole(ChainOf(s', c, t)) {
      assert Whole(ChainOf(s, c, t));
      FinishRequestChain(s, l, response, c, t);
      WholeReply(ChainOf(s, c, t), ChainOf(s', c, t), SerialOf(s.loops[l].phase.current.value, c + 1, t));
    }
  }

  // Running a callback.

  ghost predicate Answered(s: System, l: nat) {
    l < |s.loops| && s.loops[l].phase.Responses? && s.loops[l].phase.batch != []
  }

  lemma StartCallbackCounts(s: System, l: nat, w: Which)
    requires Answered(s, l) && LoopInv(s, l) && Conserved(s, w) && Balanced(s)
    ensures Conserved(StartCallback(s, l), w) && Balanced(StartCallback(s, l))
  {
    var ctx := s.loops[l].phase.batch[0];
    assert ctx in s.loops[l].phase.batch;
    NumberAppend(s.ran, ctx, w);
    NumberAppend(s.ran, ctx, All);
    SumsUpdate(s.loops, l, StartCallback(s, l).loops[l], w);
  }

  lemma StartCallbackLoop(s: System, l: nat, k: nat)
    requires Answered(s, l) && LoopInv(s, l) && k < |s.loops| && LoopInv(s, k) && CounterInv(s, k)
    ensures LoopInv(StartCallback(s, l), k) && CounterInv(StartCallback(s, l), k)
  {
    var batch := s.loops[l].phase.batch;
    assert batch[0] in batch && forall ctx | ctx in batch[1..] :: ctx in batch;
    NumberAppend(s.ran, batch[0], From(k + 1));
  }

  lemma StartCallbackChain(s: System, l: nat, c: nat, t: nat)
    requires Answered(s, l) && LoopInv(s, l) && c < |s.loops| && t < |s.loops|
    ensures var ch, ch' := ChainOf(s, c, t), ChainOf(StartCallback(s, l), c, t);
            var x := SerialOf(s.loops[l].phase.batch[0], c + 1, t);
            ch.back == x + ch'.back && ch' == ch.(ran := ch.ran + x, back := ch'.back)
  {
    var batch := s.loops[l].phase.batch;
    assert batch[0] in batch;
    SerialsAppend(s.ran, batch[0], c + 1, t);
    var x := SerialOf(batch[0], c + 1, t);
    if l == c {
      var rest, queue := Serials(batch[1..], c + 1, t), Serials(s.loops[c].asyncResponses, c + 1, t);
      assert (x + rest) + queue == x + (rest + queue);
    } else {
      assert x == [];
    }
  }

  lemma StartCallbackInv(s: System, l: nat)
    requires Inv(s) && Answered(s, l)
    ensures Inv(StartCallback(s, l))
  {
    var s' := StartCallback(s, l);
    assert LoopInv(s, l);
    assert s.loops[l].phase.batch[0] in s.loops[l].phase.batch;
    forall w ensures Conserved(s', w) {
      assert Conserved(s, w);
      StartCallbackCounts(s, l, w);
    }
    assert Conserved(s, All);
    StartCallbackCounts(s, l, All);
    forall k: nat | k < |s.loops| ensures LoopInv(s', k) && CounterInv(s', k) {
      assert LoopInv(s, k) && CounterInv(s, k);
      StartCallbackLoop(s, l, k);
    }
    forall c: nat, t: nat | c < |s.loops| && t < |s.loops| ensures Whole(ChainOf(s', c, t)) {
      assert Whole(ChainOf(s, c, t));
      StartCallbackChain(s, l, c, t);
      WholeRun(ChainOf(s, c, t), ChainOf(s', c, t), SerialOf(s.loops[l].phase.batch[0], c + 1, t));
    }
  }

  lemma PostInv(s: System, t: nat, data: Data)
    requires Inv(s) && t < |s.loops|
    ensures Inv(Set(s, t, s.loops[t].(asyncPosts := s.loops[t].asyncPosts + [data])))
  {
    assert LoopInv(s, t);
    LocalInv(s, t, s.loops[t].(asyncPosts := s.loops[t].asyncPosts + [data]));
  }

  lemma StopInv(s: System, t: nat, isStopping: bool, exitRequested: bool)
    requires Inv(s) && t < |s.loops|
    ensures Inv(Set(s, t, s.loops[t].(isStopping := isStopping, exitRequested := exitRequested)))
  {
    assert LoopInv(s, t);
    LocalInv(s, t, s.loops[t].(isStopping := isStopping, exitRequested := exitRequested));
  }

  lemma FrameInv(s: System, l: nat, step: FrameStep)
    requires Inv(s) && l < |s.loops| && FrameEnabled(s.loops[l], step)
    ensures Inv(Set(s, l, FrameNext(s.loops[l], step)))
  {
    assert LoopInv(s, l);
    FrameKeepsCalls(s.loops[l], step);
    FrameKeepsOwners(s, l, step);
    LocalInv(s, l, FrameNext(s.loops[l], step));
  }

  /** Every step of every thread keeps the invariant. */
  lemma StepInv(s: System, a: Action)
    requires Inv(s) && Enabled(s, a)
    ensures Inv(Next(s, a))
  {
    match a
    case NewLoop => AddLoopInv(s);
    case BeginAsync(l, target, cmd, data, hasHandler) =>
      BeginCallInv(s, l, Context(l + 1, cmd, data, [], hasHandler, target, |s.issued|));
    case EndAsync(l) => SendCallInv(s, l);
    case ExternalAsync(t, cmd, data, hasHandler) =>
      ExternalInv(s, t, Context(0, cmd, data, [], hasHandler, t, 0));
    case EndRequest(l, response) => FinishRequestInv(s, l, response);
    case RunCallback(l) => StartCallbackInv(s, l);
    case Post(t, data) => PostInv(s, t, data);
    case Stop(t, whenIdle) =>
      StopInv(s, t, whenIdle || s.loops[t].isStopping, !whenIdle || s.loops[t].exitRequested);
    case Frame(l, step) => FrameInv(s, l, step);
  }

  // ------------------------------------------------------------------ whole runs

  ghost predicate Run(s: System, actions: seq<Action>, s': System)
    decreases |actions|
  {
    if actions == [] then s == s' else Enabled(s, actions[0]) && Run(Next(s, actions[0]), actions[1..], s')
  }

  lemma {:induction false} RunInv(s: System, actions: seq<Action>, s': System)
    requires Inv(s) && Run(s, actions, s')
    ensures Inv(s')
    decreases |actions|
  {
    if actions == [] {
    } else {
      StepInv(s, actions[0]);
      RunInv(Next(s, actions[0]), actions[1..], s');
    }
  }

  /** s is the state after some run from the start. */
  ghost predicate Reachable(s: System) {
    exists actions :: Run(START, actions, s)
  }

  lemma ReachableInv(s: System)
    requires Reachable(s)
    ensures Inv(s)
  {
    var actions :| Run(START, actions, s);
    RunInv(START, actions, s);
  }

  /** After any run the counters add up to the calls in flight that have a caller and a callback. */
  lemma PendingIsConserved(s: System)
    requires Reachable(s)
    ensures TotalPending(s.loops) == InFlight(s.loops, All)
    ensures forall w :: Number(s.issued, w) == Number(s.ran, w) + InFlight(s.loops, w)
  {
    ReachableInv(s);
    assert Conserved(s, All);
    forall w ensures Number(s.issued, w) == Number(s.ran, w) + InFlight(s.loops, w) {
      assert Conserved(s, w);
    }
  }

  lemma ReachableChain(s: System, c: nat, t: nat)
    requires Reachable(s) && c < |s.loops| && t < |s.loops|
    ensures Whole(ChainOf(s, c, t)) && Numbered(s.issued, 0)
  {
    ReachableInv(s);
  }

  /**
    After any run the callbacks a loop has run for its calls to another one are the oldest of those calls,
    each exactly once and in call order; the rest are still on their way, in call order.
   */
  lemma CallbacksInCallOrder(s: System, c: nat, t: nat)
    requires Reachable(s) && c < |s.loops| && t < |s.loops|
    ensures Ascending(Serials(s.issued, c + 1, t))
    ensures Serials(s.ran, c + 1, t) <= Serials(s.issued, c + 1, t)
    ensures Serials(s.issued, c + 1, t)[|Serials(s.ran, c + 1, t)|..] ==
            ResponseSide(s.loops[c], c + 1, t) + RequestSide(s.loops[t], c + 1, t)
            + MaybeSerial(s.loops[c].hand, c + 1, t)
  {
    ReachableChain(s, c, t);
    WholePrefix(ChainOf(s, c, t));
    SerialsAscend(s.issued, 0, c + 1, t);
  }

  /** A callback runs on the loop that made the call. */
  lemma CallbackOnCaller(s: System, l: nat)
    requires Reachable(s) && Enabled(s, RunCallback(l))
    ensures Awaited(s.loops[l].phase.batch[0]) && s.loops[l].phase.batch[0].callerId == l + 1
  {
    ReachableInv(s);
    assert LoopInv(s, l);
    assert s.loops[l].phase.batch[0] in s.loops[l].phase.batch;
  }

  // ------------------------------------------------------------------ what the callbacks get

  /** A call that waits for its callback is the one issued under its number, but for the response. */
  predicate Genuine(issued: seq<Context>, ctx: Context) {
    Awaited(ctx) ==> ctx.serial < |issued| && issued[ctx.serial] == ctx.(response := [])
  }

  ghost predicate AllGenuine(issued: seq<Context>, cs: seq<Context>) {
    forall i :: 0 <= i < |cs| ==> Genuine(issued, cs[i])
  }

  ghost predicate GenuinePhase(issued: seq<Context>, p: Phase) {
    && (p.Requests? ==> AllGenuine(issued, p.batch) && (p.current.Some? ==> Genuine(issued, p.current.value)))
    && (p.Responses? ==> AllGenuine(issued, p.batch))
  }

  ghost predicate GenuineLoop(issued: seq<Context>, loop: Loop) {
    && AllGenuine(issued, loop.asyncRequests) && AllGenuine(issued, loop.asyncResponses)
    && GenuinePhase(issued, loop.phase)
    && (loop.hand.Some? ==> Genuine(issued, loop.hand.value))
  }

  ghost predicate GenuineSystem(s: System) {
    && (forall l :: 0 <= l < |s.loops| ==> GenuineLoop(s.issued, s.loops[l]))
    && AllGenuine(s.issued, s.ran)
  }

  lemma MoreIssued(issued: seq<Context>, ctx: Context, loop: Loop)
    requires GenuineLoop(issued, loop)
    ensures GenuineLoop(issued + [ctx], loop)
  {
  }

  lemma FrameGenuine(issued: seq<Context>, loop: Loop, step: FrameStep)
    requires GenuineLoop(issued, loop) && FrameEnabled(loop, step)
    ensures GenuineLoop(issued, FrameNext(loop, step))
  {
  }

  lemma SetGenuine(s: System, l: nat, loop: Loop)
    requires GenuineSystem(s) && l < |s.loops| && GenuineLoop(s.issued, loop)
    ensures GenuineSystem(Set(s, l, loop))
  {
  }

  lemma BeginCallGenuine(s: System, l: nat, ctx: Context)
    requires GenuineSystem(s) && l < |s.loops| && ctx.target < |s.loops| && ctx.serial == |s.issued|
    requires ctx.response == []
    ensures GenuineSystem(BeginCall(s, l, ctx))
  {
    if ctx.hasHandler {
      var s1 := Count(s, ctx.target, 1).(issued := s.issued + [ctx]);
      forall k | 0 <= k < |s1.loops| ensures GenuineLoop(s1.issued, s1.loops[k]) {
        MoreIssued(s.issued, ctx, s.loops[k]);
      }
      assert AllGenuine(s1.issued, s.ran);
      SetGenuine(s1, l, s1.loops[l].(hand := Some(ctx)));
    } else {
      SetGenuine(s, l, s.loops[l].(hand := Some(ctx)));
    }
  }

  lemma PushRequestGenuine(s: System, t: nat, ctx: Context)
    requires GenuineSystem(s) && t < |s.loops| && Genuine(s.issued, ctx)
    ensures GenuineSystem(PushRequest(s, t, ctx))
  {
    SetGenuine(s, t, s.loops[t].(asyncRequests := s.loops[t].asyncRequests + [ctx]));
  }

  lemma FinishRequestGenuine(s: System, l: nat, response: Data)
    requires GenuineSystem(s) && Answering(s, l)
    ensures GenuineSystem(FinishRequest(s, l, response))
  {
    var ctx := s.loops[l].phase.current.value.(response := response);
    var s1 := Set(s, l, s.loops[l].(phase := Requests(s.loops[l].phase.batch, None)));
    SetGenuine(s, l, s1.loops[l]);
    if Get(s, ctx.callerId).Some? && ctx.hasHandler {
      var from := ctx.callerId - 1;
      SetGenuine(s1, from, s1.loops[from].(asyncResponses := s1.loops[from].asyncResponses + [ctx]));
    }
  }

  lemma StartCallbackGenuine(s: System, l: nat)
    requires GenuineSystem(s) && l < |s.loops| && s.loops[l].phase.Responses? && s.loops[l].phase.batch != []
    ensures GenuineSystem(StartCallback(s, l))
  {
    var loop := s.loops[l];
    SetGenuine(s, l, loop.(pending := loop.pending - 1, phase := Responses(loop.phase.batch[1..])));
  }

  lemma SendCallGenuine(s: System, l: nat)
    requires GenuineSystem(s) && Enabled(s, EndAsync(l))
    ensures GenuineSystem(SendCall(s, l))
  {
    SetGenuine(s, l, s.loops[l].(hand := None));
    PushRequestGenuine(Set(s, l, s.loops[l].(hand := None)), s.loops[l].hand.value.target, s.loops[l].hand.value);
  }

  lemma LocalGenuine(s: System, t: nat, loop: Loop)
    requires GenuineSystem(s) && t < |s.loops|
    requires loop.asyncRequests == s.loops[t].asyncRequests && loop.asyncResponses == s.loops[t].asyncResponses
    requires loop.phase == s.loops[t].phase && loop.hand == s.loops[t].hand
    ensures GenuineSystem(Set(s, t, loop))
  {
    SetGenuine(s, t, loop);
  }

  lemma NewLoopGenuine(s: System)
    requires GenuineSystem(s)
    ensures GenuineSystem(AddLoop(s))
  {
  }

  lemma StepGenuine(s: System, a: Action)
    requires GenuineSystem(s) && Enabled(s, a)
    ensures GenuineSystem(Next(s, a))
  {
    match a
    case NewLoop => NewLoopGenuine(s);
    case BeginAsync(l, target, cmd, data, hasHandler) =>
      BeginCallGenuine(s, l, Context(l + 1, cmd, data, [], hasHandler, target, |s.issued|));
    case EndAsync(l) => SendCallGenuine(s, l);
    case ExternalAsync(t, cmd, data, hasHandler) =>
      PushRequestGenuine(s, t, Context(0, cmd, data, [], hasHandler, t, 0));
    case EndRequest(l, response) => FinishRequestGenuine(s, l, response);
    case RunCallback(l) => StartCallbackGenuine(s, l);
    case Post(t, data) => LocalGenuine(s, t, s.loops[t].(asyncPosts := s.loops[t].asyncPosts + [data]));
    case Stop(t, whenIdle) =>
      if whenIdle { LocalGenuine(s, t, s.loops[t].(isStopping := true)); }
      else { LocalGenuine(s, t, s.loops[t].(exitRequested := true)); }
    case Frame(l, step) =>
      FrameGenuine(s.issued, s.loops[l], step);
      SetGenuine(s, l, FrameNext(s.loops[l], step));
  }

  lemma {:induction false} RunGenuine(s: System, actions: seq<Action>, s': System)
    requires GenuineSystem(s) && Run(s, actions, s')
    ensures GenuineSystem(s')
    decreases |actions|
  {
    if actions == [] {
    } else {
      StepGenuine(s, actions[0]);
      RunGenuine(Next(s, actions[0]), actions[1..], s');
    }
  }

  /** A callback gets the command and the request of the call issued under its number, and so did all that have run. */
  lemma CallbackGetsItsCall(s: System, l: nat)
    requires Reachable(s) && Enabled(s, RunCallback(l))
    ensures var ctx := s.loops[l].phase.batch[0];
            ctx.serial < |s.issued| && s.issued[ctx.serial] == ctx.(response := [])
    ensures AllGenuine(s.issued, s.ran)
  {
    var actions :| Run(START, actions, s);
    RunGenuine(START, actions, s);
    CallbackOnCaller(s, l);
  }

  /** The end of the frame makes the loop leave. */
  predicate StopFires(s: System, l: nat) {
    && Enabled(s, Frame(l, EndFrame)) && !s.loops[l].exitRequested
    && Next(s, Frame(l, EndFrame)).loops[l].exitRequested
  }

  /**
    When a pending stop fires, the loop has no callback outstanding if and only if it was called
    exactly as often as it called.
   */
  lemma StopIsCleanIff(s: System, l: nat)
    requires Reachable(s) && StopFires(s, l)
    ensures InFlight(s.loops, From(l + 1)) == 0 <==> Number(s.issued, From(l + 1)) == Number(s.issued, To(l))
  {
    ReachableInv(s);
    assert CounterInv(s, l) && Conserved(s, From(l + 1));
  }

  ghost predicate SelfCall(a: Action) {
    a.BeginAsync? ==> a.target == a.l
  }

  lemma {:induction false} SelfRun(s: System, actions: seq<Action>, s': System)
    requires Run(s, actions, s') && forall i | 0 <= i < |actions| :: SelfCall(actions[i])
    requires forall ctx | ctx in s.issued :: ctx.callerId == ctx.target + 1
    ensures forall ctx | ctx in s'.issued :: ctx.callerId == ctx.target + 1
    decreases |actions|
  {
    if actions == [] {
    } else {
      SelfRun(Next(s, actions[0]), actions[1..], s');
    }
  }

  lemma {:induction false} SelfNumbers(cs: seq<Context>, l: nat)
    requires forall ctx | ctx in cs :: ctx.callerId == ctx.target + 1
    ensures Number(cs, From(l + 1)) == Number(cs, To(l))
  {
    if cs == [] {
    } else {
      SelfNumbers(cs[1..], l);
    }
  }

  /** In runs where loops call only themselves, a pending stop fires only with no callback outstanding. */
  lemma SelfCallersStopClean(actions: seq<Action>, s: System, l: nat)
    requires Run(START, actions, s) && StopFires(s, l)
    requires forall i | 0 <= i < |actions| :: SelfCall(actions[i])
    ensures InFlight(s.loops, From(l + 1)) == 0
  {
    StopIsCleanIff(s, l);
    SelfRun(START, actions, s);
    SelfNumbers(s.issued, l);
  }

  /** A loop that calls another one and then stops leaves with its callback outstanding. */
  const LOSING_RUN := [
    NewLoop, NewLoop,
    BeginAsync(0, 1, 7, [], true), EndAsync(0), Stop(0, true),
    Frame(0, BeginFrame), Frame(0, MoveRequests), Frame(0, MoveResponses), Frame(0, BeginFrameLogic)]

  lemma RunFirst(s: System, a: Action, rest: seq<Action>, s1: System, s': System)
    requires Enabled(s, a) && Next(s, a) == s1 && Run(s1, rest, s')
    ensures Run(s, [a] + rest, s')
  {
    assert ([a] + rest)[1..] == rest;
  }

  lemma CrossLoopStopLosesCallback()
    ensures exists s :: Run(START, LOSING_RUN, s) && StopFires(s, 0) && InFlight(s.loops, From(1)) == 1
  {
    var ctx := Context(1, 7, [], [], true, 1, 0);
    var asked := NEW_LOOP.(pending := 1, asyncRequests := [ctx]);
    var quitting := NEW_LOOP.(isStopping := true);
    var s9 := System([quitting.(phase := FrameLogic), asked], [ctx], []);
    LosingFrame(quitting, asked, ctx);
    LosingCall(ctx, s9);
    OneOutstanding(quitting.(phase := FrameLogic), asked, ctx);
    Fires(s9);
  }

  lemma Fires(s: System)
    requires s.loops != [] && s.loops[0] == NEW_LOOP.(isStopping := true, phase := FrameLogic)
    ensures StopFires(s, 0)
  {
  }

  lemma OneOutstanding(caller: Loop, asked: Loop, ctx: Context)
    requires caller == NEW_LOOP.(isStopping := true, phase := FrameLogic)
    requires asked == NEW_LOOP.(pending := 1, asyncRequests := [ctx]) && Awaited(ctx) && ctx.callerId == 1
    ensures InFlight([caller, asked], From(1)) == 1
  {
    assert Number([ctx], From(1)) == Number([], From(1)) + One(ctx, From(1));
    assert Held(asked, From(1)) == 1 && Held(caller, From(1)) == 0;
    assert [caller, asked][..1] == [caller] && [caller][..0] == [];
    assert InFlight([caller], From(1)) == InFlight([], From(1)) + Held(caller, From(1));
  }

  /** One frame of the calling loop. */
  lemma LosingFrame(quitting: Loop, asked: Loop, ctx: Context)
    requires quitting == NEW_LOOP.(isStopping := true)
    ensures Run(System([quitting, asked], [ctx], []), LOSING_RUN[5..],
                System([quitting.(phase := FrameLogic), asked], [ctx], []))
  {
    var s5 := System([quitting, asked], [ctx], []);
    var s6 := System([quitting.(phase := Posts([])), asked], [ctx], []);
    var s7 := System([quitting.(phase := Requests([], None)), asked], [ctx], []);
    var s8 := System([quitting.(phase := Responses([])), asked], [ctx], []);
    var s9 := System([quitting.(phase := FrameLogic), asked], [ctx], []);
    RunFirst(s8, Frame(0, BeginFrameLogic), [], s9, s9);
    RunFirst(s7, Frame(0, MoveResponses), LOSING_RUN[8..], s8, s9);
    RunFirst(s6, Frame(0, MoveRequests), LOSING_RUN[7..], s7, s9);
    RunFirst(s5, Frame(0, BeginFrame), LOSING_RUN[6..], s6, s9);
    assert [Frame(0, BeginFrameLogic)] + [] == LOSING_RUN[8..];
    assert [Frame(0, MoveResponses)] + LOSING_RUN[8..] == LOSING_RUN[7..];
    assert [Frame(0, MoveRequests)] + LOSING_RUN[7..] == LOSING_RUN[6..];
    assert [Frame(0, BeginFrame)] + LOSING_RUN[6..] == LOSING_RUN[5..];
  }

  /** Two loops are created, and the first calls the second and asks to stop. */
  lemma LosingCall(ctx: Context, end: System)
    requires ctx == Context(1, 7, [], [], true, 1, 0)
    requires Run(System([NEW_LOOP.(isStopping := true), NEW_LOOP.(pending := 1, asyncRequests := [ctx])], [ctx], []),
                 LOSING_RUN[5..], end)
    ensures Run(START, LOSING_RUN, end)
  {
    var asked := NEW_LOOP.(pending := 1, asyncRequests := [ctx]);
    var s3 := System([NEW_LOOP.(hand := Some(ctx)), NEW_LOOP.(pending := 1)], [ctx], []);
    var s4 := System([NEW_LOOP, asked], [ctx], []);
    var s5 := System([NEW_LOOP.(isStopping := true), asked], [ctx], []);
    RunFirst(s4, Stop(0, true), LOSING_RUN[5..], s5, end);
    assert [Stop(0, true)] + LOSING_RUN[5..] == LOSING_RUN[4..];
    Sent(s3, s4, ctx);
    RunFirst(s3, EndAsync(0), LOSING_RUN[4..], s4, end);
    assert [EndAsync(0)] + LOSING_RUN[4..] == LOSING_RUN[3..];
    LosingStart(s3, ctx, end);
  }

  lemma LosingStart(s3: System, ctx: Context, end: System)
    requires ctx == Context(1, 7, [], [], true, 1, 0)
    requires s3 == System([NEW_LOOP.(hand := Some(ctx)), NEW_LOOP.(pending := 1)], [ctx], [])
    requires Run(s3, LOSING_RUN[3..], end)
    ensures Run(START, LOSING_RUN, end)
  {
    var s1, s2 := System([NEW_LOOP], [], []), System([NEW_LOOP, NEW_LOOP], [], []);
    RunFirst(s2, BeginAsync(0, 1, 7, [], true), LOSING_RUN[3..], s3, end);
    assert [LOSING_RUN[2]] + LOSING_RUN[3..] == LOSING_RUN[2..];
    RunFirst(s1, NewLoop, LOSING_RUN[2..], s2, end);
    assert [NewLoop] + LOSING_RUN[2..] == LOSING_RUN[1..];
    RunFirst(START, NewLoop, LOSING_RUN[1..], s1, end);
    assert [NewLoop] + LOSING_RUN[1..] == LOSING_RUN;
  }

  lemma Sent(s3: System, s4: System, ctx: Context)
    requires ctx.target == 1
    requires s3 == System([NEW_LOOP.(hand := Some(ctx)), NEW_LOOP.(pending := 1)], [ctx], [])
    requires s4 == System([NEW_LOOP, NEW_LOOP.(pending := 1, asyncRequests := [ctx])], [ctx], [])
    ensures SendCall(s3, 0) == s4
  {
    assert [] + [ctx] == [ctx];
    assert SendCall(s3, 0).loops[0] == s4.loops[0] && SendCall(s3, 0).loops[1] == s4.loops[1];
  }
}
