/**
  The reference-counted log records of MessageLog.cc. Records share pooled objects; an object
  without references goes back to a linked free list. Each object buffers what is written to
  its records and hands it to a sink in pieces. Pointers are positions in the heap of objects.
 */
module RecordPool {
  import opened Wrappers
  import opened Sequences

  type Pointer = Option<nat>

  /** The put area: one byte of the buffer is kept for the terminator. */
  const ROOM: nat := 4095

  datatype Object = Object(next: Pointer, useRef: int, advise: Option<nat>, buf: string)

  /** One logMessage call: a sink and the C string it sees. */
  datatype Delivery = Delivery(sink: nat, message: string)

  // ------------------------------------------------------------------ bytes

  /** What a sink sees of a buffer: everything before the first terminator. */
  function CString(s: string): string {
    if s == "" || s[0] == '\0' then "" else [s[0]] + CString(s[1..])
  }

  function Concat(pieces: seq<string>): string {
    if pieces == [] then "" else Concat(pieces[..|pieces| - 1]) + pieces[|pieces| - 1]
  }

  function Seen(pieces: seq<string>): (r: seq<string>)
    ensures |r| == |pieces|
  {
    if pieces == [] then [] else Seen(pieces[..|pieces| - 1]) + [CString(pieces[|pieces| - 1])]
  }

  lemma {:induction false} CStringWhole(s: string)
    ensures |CString(s)| <= |s|
    ensures |CString(s)| == |s| <==> '\0' !in s
    ensures '\0' !in s ==> CString(s) == s
  {
    if s == "" {
    } else {
      assert s == [s[0]] + s[1..];
      if s[0] != '\0' { CStringWhole(s[1..]); }
    }
  }

  lemma {:induction false} SeenWhole(pieces: seq<string>)
    ensures |Concat(Seen(pieces))| <= |Concat(pieces)|
    ensures |Concat(Seen(pieces))| == |Concat(pieces)| <==> '\0' !in Concat(pieces)
    ensures '\0' !in Concat(pieces) ==> Seen(pieces) == pieces
  {
    if pieces == [] {
    } else {
      var front, last := pieces[..|pieces| - 1], pieces[|pieces| - 1];
      SeenWhole(front);
      CStringWhole(last);
      assert Seen(pieces)[..|pieces| - 1] == Seen(front);
      assert pieces == front + [last];
    }
  }

  /** The sink gets exactly what was handed over if and only if there is no zero byte in it. */
  lemma SeenIff(pieces: seq<string>)
    ensures Concat(Seen(pieces)) == Concat(pieces) <==> '\0' !in Concat(pieces)
  {
    SeenWhole(pieces);
  }

  lemma ConcatAppend(pieces: seq<string>, p: string)
    ensures Concat(pieces + [p]) == Concat(pieces) + p
  {
    assert (pieces + [p])[..|pieces|] == pieces;
  }

  // ------------------------------------------------------------------ the free list

  function Head(free: seq<nat>): Pointer {
    if free == [] then None else Some(free[0])
  }

  /** The objects reached from cache by following next are those of free, each once. */
  ghost predicate FreeList(heap: seq<Object>, cache: Pointer, free: seq<nat>)
    decreases |free|
  {
    && cache == Head(free)
    && (free != [] ==> free[0] < |heap| && free[0] !in free[1..] && FreeList(heap, heap[free[0]].next, free[1..]))
  }

  lemma {:induction false} FreeInHeap(heap: seq<Object>, cache: Pointer, free: seq<nat>, o: nat)
    requires FreeList(heap, cache, free) && o in free
    ensures o < |heap|
    decreases |free|
  {
    if o == free[0] {
    } else {
      FreeInHeap(heap, heap[free[0]].next, free[1..], o);
    }
  }

  /** Objects off the list can change, and new ones can come. */
  lemma {:induction false} FreeListKept(heap: seq<Object>, after: seq<Object>, cache: Pointer, free: seq<nat>)
    requires FreeList(heap, cache, free) && |heap| <= |after|
    requires forall o :: o in free && o < |heap| ==> after[o].next == heap[o].next
    ensures FreeList(after, cache, free)
    decreases |free|
  {
    if free == [] {
    } else {
      FreeListKept(heap, after, heap[free[0]].next, free[1..]);
    }
  }

  // ------------------------------------------------------------------ reference counts

  /** The records that hold an object. */
  function Holders(records: map<nat, Pointer>, o: nat): set<nat> {
    set r | r in records && records[r] == Some(o)
  }

  /** Free objects are unused and empty; the others count the records that hold them and the pending references. */
  ghost predicate Counts(x: Object, o: nat, records: map<nat, Pointer>, free: seq<nat>, pending: multiset<nat>) {
    if o in free then x.useRef == 0 && x.buf == "" && Holders(records, o) == {} && pending[o] == 0
    else x.useRef == |Holders(records, o)| + pending[o] > 0 && x.advise.Some?
  }

  ghost predicate Counted(heap: seq<Object>, records: map<nat, Pointer>, free: seq<nat>, pending: multiset<nat>) {
    && (forall o :: 0 <= o < |heap| ==> Counts(heap[o], o, records, free, pending))
    && (forall r :: r in records && records[r].Some? ==> records[r].value < |heap|)
    && (forall o :: o in pending ==> o < |heap|)
  }

  lemma HoldersUpdate(records: map<nat, Pointer>, r: nat, p: Pointer, o: nat)
    requires r !in records
    ensures Holders(records[r := p], o) == if p == Some(o) then Holders(records, o) + {r} else Holders(records, o)
    ensures r !in Holders(records, o)
  {
  }

  lemma HoldersRemove(records: map<nat, Pointer>, r: nat, o: nat)
    requires r in records
    ensures Holders(records, o) == Holders(records - {r}, o) + if records[r] == Some(o) then {r} else {}
    ensures r !in Holders(records - {r}, o)
  {
  }

  function One(p: Pointer): multiset<nat> {
    if p.Some? then multiset{p.value} else multiset{}
  }

  /** A pending reference becomes that of a record. */
  lemma Adopt(heap: seq<Object>, records: map<nat, Pointer>, free: seq<nat>, pending: multiset<nat>, r: nat, p: Pointer)
    requires Counted(heap, records, free, pending + One(p)) && r !in records
    ensures Counted(heap, records[r := p], free, pending)
  {
    if p.Some? { assert p.value in pending + One(p); }
    forall o | 0 <= o < |heap| ensures Counts(heap[o], o, records[r := p], free, pending) {
      assert Counts(heap[o], o, records, free, pending + One(p));
      HoldersUpdate(records, r, p, o);
    }
    forall o | o in pending ensures o < |heap| { assert o in pending + One(p); }
  }

  /** The reference of a record becomes pending. */
  lemma Abandon(heap: seq<Object>, records: map<nat, Pointer>, free: seq<nat>, pending: multiset<nat>, r: nat)
    requires Counted(heap, records, free, pending) && r in records
    ensures Counted(heap, records - {r}, free, pending + One(records[r]))
  {
    forall o | 0 <= o < |heap| ensures Counts(heap[o], o, records - {r}, free, pending + One(records[r])) {
      assert Counts(heap[o], o, records, free, pending);
      HoldersRemove(records, r, o);
    }
  }

  /** One object changes without leaving or joining the free list. */
  lemma CountedUpdate(heap: seq<Object>, records: map<nat, Pointer>, free: seq<nat>, before: multiset<nat>,
                      after: multiset<nat>, o: nat, x: Object)
    requires Counted(heap, records, free, before) && o < |heap|
    requires forall q :: q != o ==> after[q] == before[q]
    requires Counts(x, o, records, free, after)
    ensures Counted(heap[o := x], records, free, after)
  {
    var changed := heap[o := x];
    forall q | 0 <= q < |heap| ensures Counts(changed[q], q, records, free, after) {
      assert Counts(heap[q], q, records, free, before);
    }
    forall q | q in after ensures q < |heap| {
      if q != o { assert q in before; }
    }
  }

  /** An object leaves the free list with one pending reference. */
  lemma CountedTaken(heap: seq<Object>, records: map<nat, Pointer>, free: seq<nat>, pending: multiset<nat>, x: Object)
    requires free != [] && free[0] < |heap| && free[0] !in free[1..] && Counted(heap, records, free, pending)
    requires x.useRef == 1 && x.advise.Some?
    ensures Counted(heap[free[0] := x], records, free[1..], pending + multiset{free[0]})
  {
    var o := free[0];
    var changed := heap[o := x];
    forall q | 0 <= q < |heap| ensures Counts(changed[q], q, records, free[1..], pending + multiset{o}) {
      assert Counts(heap[q], q, records, free, pending);
      assert q in free <==> q == o || q in free[1..];
    }
  }

  /** An object joins the free list when its last reference goes. */
  lemma CountedFreed(heap: seq<Object>, records: map<nat, Pointer>, free: seq<nat>, pending: multiset<nat>, o: nat,
                     x: Object)
    requires Counted(heap, records, free, pending) && o < |heap| && o !in free && o in pending
    requires heap[o].useRef == 1 && x.useRef == 0 && x.buf == ""
    ensures Counted(heap[o := x], records, [o] + free, pending - multiset{o})
  {
    assert Counts(heap[o], o, records, free, pending);
    var changed := heap[o := x];
    forall q | 0 <= q < |heap| ensures Counts(changed[q], q, records, [o] + free, pending - multiset{o}) {
      assert Counts(heap[q], q, records, free, pending);
    }
  }

  lemma CountedNew(heap: seq<Object>, records: map<nat, Pointer>, cache: Pointer, free: seq<nat>,
                   pending: multiset<nat>, x: Object)
    requires Counted(heap, records, free, pending) && FreeList(heap, cache, free)
    requires x.useRef == 1 && x.advise.Some?
    ensures Counted(heap + [x], records, free, pending + multiset{|heap|})
  {
    var n := |heap|;
    if n in free { FreeInHeap(heap, cache, free, n); }
    assert pending[n] == 0;
    assert Holders(records, n) == {};
    forall q | 0 <= q < |heap + [x]| ensures Counts((heap + [x])[q], q, records, free, pending + multiset{n}) {
      if q < n { assert Counts(heap[q], q, records, free, pending); }
    }
  }

  // ------------------------------------------------------------------ sessions

  /**
    A session lasts from the time an object is taken until it is free again: its sink, and all that is written to its
    records.
   */
  datatype Text = Text(sink: nat, written: string)

  /**
    For each session its text, the pieces handed over so far and the object in use for it; for each object its latest
    session.
   */
  datatype Log = Log(texts: seq<Text>, sent: seq<seq<string>>, owner: seq<Pointer>, current: seq<nat>)

  /** Every piece but the last fills a buffer, and the last is not empty. */
  ghost predicate Chunked(sent: seq<string>) {
    forall i :: 0 <= i < |sent| ==> 0 < |sent[i]| <= ROOM && (i < |sent| - 1 ==> |sent[i]| == ROOM)
  }

  ghost predicate AllFull(sent: seq<string>) {
    forall i :: 0 <= i < |sent| ==> |sent[i]| == ROOM
  }

  /**
    What an object still buffers completes the pieces of its session to the text; a piece that does not fill a buffer
    is handed over only when no reference is left.
   */
  ghost predicate Open(x: Object, text: Text, sent: seq<string>) {
    && x.advise == Some(text.sink) && Concat(sent) + x.buf == text.written && |x.buf| <= ROOM
    && (AllFull(sent) || (x.useRef == 0 && x.buf == ""))
  }

  predicate Shaped(heap: seq<Object>, log: Log) {
    |log.current| == |heap| && |log.texts| == |log.sent| == |log.owner|
  }

  ghost predicate Session(heap: seq<Object>, free: seq<nat>, log: Log, k: nat)
    requires Shaped(heap, log) && k < |log.texts|
  {
    && Chunked(log.sent[k])
    && match log.owner[k]
       case None => Concat(log.sent[k]) == log.texts[k].written
       case Some(o) => o < |heap| && o !in free && log.current[o] == k && Open(heap[o], log.texts[k], log.sent[k])
  }

  ghost predicate InSession(log: Log, o: nat)
    requires o < |log.current|
  {
    log.current[o] < |log.owner| && log.owner[log.current[o]] == Some(o)
  }

  /** Sessions without an object are complete; every object in use has a session of its own. */
  ghost predicate Logged(heap: seq<Object>, free: seq<nat>, log: Log) {
    && Shaped(heap, log)
    && (forall o :: 0 <= o < |heap| && o !in free ==> InSession(log, o))
    && (forall k :: 0 <= k < |log.texts| ==> Session(heap, free, log, k))
  }

  /** A change that no session sees. */
  lemma LogObject(heap: seq<Object>, free: seq<nat>, log: Log, o: nat, x: Object)
    requires Logged(heap, free, log) && o < |heap| && x.buf == heap[o].buf && x.advise == heap[o].advise
    requires heap[o].useRef > 0 || x.useRef == 0
    ensures Logged(heap[o := x], free, log)
  {
    var after := heap[o := x];
    forall k | 0 <= k < |log.texts| ensures Session(after, free, log, k) {
      assert Session(heap, free, log, k);
    }
  }

  function Begun(log: Log, sink: nat, o: nat, current: seq<nat>): Log {
    Log(log.texts + [Text(sink, "")], log.sent + [[]], log.owner + [Some(o)], current)
  }

  /** An object from the free list begins a session. */
  lemma LogTaken(heap: seq<Object>, free: seq<nat>, log: Log, sink: nat, x: Object)
    requires Logged(heap, free, log) && free != [] && free[0] < |heap| && free[0] !in free[1..]
    requires x.buf == "" && x.advise == Some(sink)
    ensures Logged(heap[free[0] := x], free[1..], Begun(log, sink, free[0], log.current[free[0] := |log.texts|]))
  {
    var o := free[0];
    var after, log' := heap[o := x], Begun(log, sink, o, log.current[o := |log.texts|]);
    assert forall q :: q in free <==> q == o || q in free[1..];
    forall q | 0 <= q < |after| && q !in free[1..] ensures InSession(log', q) {
      if q != o { assert InSession(log, q); }
    }
    forall k | 0 <= k < |log'.texts| ensures Session(after, free[1..], log', k) {
      if k < |log.texts| { assert Session(heap, free, log, k); }
    }
  }

  /** A new object begins a session. */
  lemma LogNew(heap: seq<Object>, free: seq<nat>, log: Log, sink: nat, x: Object)
    requires Logged(heap, free, log) && x.buf == "" && x.advise == Some(sink) && |heap| !in free
    ensures Logged(heap + [x], free, Begun(log, sink, |heap|, log.current + [|log.texts|]))
  {
    var n := |heap|;
    var after, log' := heap + [x], Begun(log, sink, n, log.current + [|log.texts|]);
    forall q | 0 <= q < |after| && q !in free ensures InSession(log', q) {
      if q != n { assert InSession(log, q); }
    }
    forall k | 0 <= k < |log'.texts| ensures Session(after, free, log', k) {
      if k < |log.texts| { assert Session(heap, free, log, k); }
    }
  }

  function Extended(texts: seq<Text>, k: nat, more: string): seq<Text> {
    if k < |texts| then texts[k := texts[k].(written := texts[k].written + more)] else texts
  }

  /** A character joins the buffer of an object and the text of its session. */
  lemma LogStored(heap: seq<Object>, free: seq<nat>, log: Log, o: nat, c: char)
    requires Logged(heap, free, log) && o < |heap| && o !in free && |heap[o].buf| < ROOM && heap[o].useRef > 0
    ensures Logged(heap[o := heap[o].(buf := heap[o].buf + [c])], free,
        log.(texts := Extended(log.texts, log.current[o], [c])))
  {
    assert InSession(log, o);
    var k := log.current[o];
    var after, log' := heap[o := heap[o].(buf := heap[o].buf + [c])], log.(texts := Extended(log.texts, k, [c]));
    assert Session(heap, free, log, k);
    assert Concat(log.sent[k]) + (heap[o].buf + [c]) == (Concat(log.sent[k]) + heap[o].buf) + [c];
    forall q | 0 <= q < |after| && q !in free ensures InSession(log', q) { assert InSession(log, q); }
    forall j | 0 <= j < |log.texts| ensures Session(after, free, log', j) { assert Session(heap, free, log, j); }
  }

  /** The buffer of an object becomes a piece of its session. */
  lemma LogHanded(heap: seq<Object>, free: seq<nat>, log: Log, o: nat)
    requires Logged(heap, free, log) && o < |heap| && o !in free && heap[o].buf != ""
    requires |heap[o].buf| == ROOM || heap[o].useRef == 0
    ensures InSession(log, o)
    ensures var k := log.current[o];
            Logged(heap[o := heap[o].(buf := "")], free, log.(sent := log.sent[k := log.sent[k] + [heap[o].buf]]))
  {
    assert InSession(log, o);
    var k := log.current[o];
    var after, log' := heap[o := heap[o].(buf := "")], log.(sent := log.sent[k := log.sent[k] + [heap[o].buf]]);
    assert Session(heap, free, log, k);
    ConcatAppend(log.sent[k], heap[o].buf);
    forall q | 0 <= q < |after| && q !in free ensures InSession(log', q) { assert InSession(log, q); }
    forall j | 0 <= j < |log.texts| ensures Session(after, free, log', j) { assert Session(heap, free, log, j); }
  }

  /** An object that has handed over its buffer ends its session. */
  lemma LogEnded(heap: seq<Object>, free: seq<nat>, log: Log, o: nat, x: Object)
    requires Logged(heap, free, log) && o < |heap| && o !in free && heap[o].buf == ""
    ensures InSession(log, o)
    ensures Logged(heap[o := x], [o] + free, log.(owner := log.owner[log.current[o] := None]))
  {
    assert InSession(log, o);
    var k := log.current[o];
    var after, log' := heap[o := x], log.(owner := log.owner[k := None]);
    assert Session(heap, free, log, k);
    forall q | 0 <= q < |after| && q !in [o] + free ensures InSession(log', q) { assert InSession(log, q); }
    forall j | 0 <= j < |log.texts| ensures Session(after, [o] + free, log', j) { assert Session(heap, free, log, j); }
  }

  // ------------------------------------------------------------------ what the sinks get

  /** The logMessage calls for some pieces. */
  function Messages(sink: nat, pieces: seq<string>): seq<Delivery> {
    if pieces == [] then []
    else Messages(sink, pieces[..|pieces| - 1]) + [Delivery(sink, CString(pieces[|pieces| - 1]))]
  }

  /** The deliveries of session k; origin says which session each delivery belongs to. */
  function Of(output: seq<Delivery>, origin: seq<nat>, k: nat): seq<Delivery>
    requires |origin| == |output|
  {
    if output == [] then []
    else
      var n := |output| - 1;
      Of(output[..n], origin[..n], k) + if origin[n] == k then [output[n]] else []
  }

  /** The sinks have got the pieces of each session, and nothing else. */
  ghost predicate Outputs(output: seq<Delivery>, origin: seq<nat>, texts: seq<Text>, sent: seq<seq<string>>) {
    && |origin| == |output| && |texts| == |sent|
    && (forall i :: 0 <= i < |origin| ==> origin[i] < |texts|)
    && (forall k :: 0 <= k < |texts| ==> Of(output, origin, k) == Messages(texts[k].sink, sent[k]))
  }

  lemma OfAppend(output: seq<Delivery>, origin: seq<nat>, d: Delivery, j: nat, k: nat)
    requires |origin| == |output|
    ensures Of(output + [d], origin + [j], k) == Of(output, origin, k) + if j == k then [d] else []
  {
    assert (output + [d])[..|output|] == output && (origin + [j])[..|output|] == origin;
  }

  lemma {:induction false} OfNone(output: seq<Delivery>, origin: seq<nat>, k: nat)
    requires |origin| == |output| && k !in origin
    ensures Of(output, origin, k) == []
  {
    if output == [] {
    } else {
      OfNone(output[..|output| - 1], origin[..|output| - 1], k);
    }
  }

  lemma MessagesAppend(sink: nat, pieces: seq<string>, p: string)
    ensures Messages(sink, pieces + [p]) == Messages(sink, pieces) + [Delivery(sink, CString(p))]
  {
    assert (pieces + [p])[..|pieces|] == pieces;
  }

  lemma OutputsBegun(output: seq<Delivery>, origin: seq<nat>, texts: seq<Text>, sent: seq<seq<string>>, sink: nat)
    requires Outputs(output, origin, texts, sent)
    ensures Outputs(output, origin, texts + [Text(sink, "")], sent + [[]])
  {
    OfNone(output, origin, |texts|);
  }

  lemma OutputsHanded(output: seq<Delivery>, origin: seq<nat>, texts: seq<Text>, sent: seq<seq<string>>, k: nat,
                      piece: string)
    requires Outputs(output, origin, texts, sent) && k < |texts|
    ensures Outputs(output + [Delivery(texts[k].sink, CString(piece))], origin + [k], texts,
        sent[k := sent[k] + [piece]])
  {
    var d := Delivery(texts[k].sink, CString(piece));
    MessagesAppend(texts[k].sink, sent[k], piece);
    forall j | 0 <= j < |texts|
      ensures Of(output + [d], origin + [k], j) == Messages(texts[j].sink, sent[k := sent[k] + [piece]][j])
    {
      OfAppend(output, origin, d, k, j);
    }
  }

  lemma OutputsExtended(output: seq<Delivery>, origin: seq<nat>, texts: seq<Text>, sent: seq<seq<string>>, k: nat,
                        more: string)
    requires Outputs(output, origin, texts, sent)
    ensures Outputs(output, origin, Extended(texts, k, more), sent)
  {
  }

  // ------------------------------------------------------------------ records and sessions

  /** The session behind a pointer. */
  function SessionOf(p: Pointer, current: seq<nat>): Pointer {
    if p.Some? && p.value < |current| then Some(current[p.value]) else None
  }

  /** holds gives the session of each record. */
  ghost predicate Viewed(records: map<nat, Pointer>, holds: map<nat, Pointer>, current: seq<nat>) {
    && records.Keys == holds.Keys
    && forall r :: r in records ==>
         holds[r] == SessionOf(records[r], current) && (records[r].Some? ==> records[r].value < |current|)
  }

  lemma ViewedKept(records: map<nat, Pointer>, holds: map<nat, Pointer>, before: seq<nat>, after: seq<nat>, o: nat)
    requires Viewed(records, holds, before) && |before| <= |after| && Holders(records, o) == {}
    requires forall q :: 0 <= q < |before| && q != o ==> after[q] == before[q]
    ensures Viewed(records, holds, after)
  {
    forall r | r in records ensures records[r] != Some(o) {
      assert records[r] == Some(o) ==> r in Holders(records, o);
    }
  }

  // ------------------------------------------------------------------ runs

  datatype Operation =
    | CreateRecord(r: nat, sink: nat, outOfMemory: bool)
    | CopyRecord(r: nat, from: nat)
    | AssignRecord(r: nat, from: nat)
    | DestroyRecord(r: nat)
    | WriteText(r: nat, text: string)

  /** All that users of records know: the session of each record, null for one without an object, and the texts. */
  datatype View = View(holds: map<nat, Pointer>, texts: seq<Text>)

  function SessionIn(v: View, r: nat): Pointer {
    if r in v.holds then v.holds[r] else None
  }

  /** What an operation does, without pools, counts and buffers; failed says that a new record has got no object. */
  function Applied(v: View, op: Operation, failed: bool): View {
    match op
    case CreateRecord(r, sink, _) =>
      if failed then v.(holds := v.holds[r := None])
      else View(v.holds[r := Some(|v.texts|)], v.texts + [Text(sink, "")])
    case CopyRecord(r, from) => v.(holds := v.holds[r := SessionIn(v, from)])
    case AssignRecord(r, from) => v.(holds := v.holds[r := SessionIn(v, from)])
    case DestroyRecord(r) => v.(holds := v.holds - {r})
    case WriteText(r, text) =>
      if SessionIn(v, r).None? then v else v.(texts := Extended(v.texts, SessionIn(v, r).value, text))
  }

  function ViewAfter(ops: seq<Operation>, failures: seq<bool>): View
    requires |failures| == |ops|
  {
    if ops == [] then View(map[], [])
    else
      var n := |ops| - 1;
      Applied(ViewAfter(ops[..n], failures[..n]), ops[n], failures[n])
  }

  /** The records that exist after some operations. */
  function Live(ops: seq<Operation>): set<nat> {
    if ops == [] then {}
    else
      var live := Live(ops[..|ops| - 1]);
      match ops[|ops| - 1]
      case CreateRecord(r, _, _) => live + {r}
      case CopyRecord(r, _) => live + {r}
      case AssignRecord(_, _) => live
      case DestroyRecord(r) => live - {r}
      case WriteText(_, _) => live
  }

  predicate LegalOperation(live: set<nat>, op: Operation) {
    match op
    case CreateRecord(r, _, _) => r !in live
    case CopyRecord(r, from) => r !in live && from in live
    case AssignRecord(r, from) => r in live && from in live
    case DestroyRecord(r) => r in live
    case WriteText(r, _) => r in live
  }

  /** Records are used between their construction and their destruction. */
  ghost predicate Legal(ops: seq<Operation>) {
    forall i :: 0 <= i < |ops| ==> LegalOperation(Live(ops[..i]), ops[i])
  }

  /** No record holds session k any more. */
  ghost predicate Finished(v: View, k: nat) {
    forall r :: r in v.holds ==> v.holds[r] != Some(k)
  }

  /** The text that a sink gets in some deliveries. */
  function Received(ds: seq<Delivery>): string {
    if ds == [] then "" else Received(ds[..|ds| - 1]) + ds[|ds| - 1].message
  }

  lemma {:induction false} ReceivedIsSeen(sink: nat, pieces: seq<string>)
    ensures |Messages(sink, pieces)| == |pieces|
    ensures Received(Messages(sink, pieces)) == Concat(Seen(pieces))
  {
    if pieces == [] {
    } else {
      var n := |pieces| - 1;
      ReceivedIsSeen(sink, pieces[..n]);
      var ds := Messages(sink, pieces);
      assert ds[..n] == Messages(sink, pieces[..n]) && ds[n].message == CString(pieces[n]);
      assert Seen(pieces)[..n] == Seen(pieces[..n]) && Seen(pieces)[n] == CString(pieces[n]);
    }
  }

  lemma {:induction false} MessageIs(sink: nat, pieces: seq<string>, i: nat)
    requires i < |pieces|
    ensures |Messages(sink, pieces)| == |pieces| && Messages(sink, pieces)[i] == Delivery(sink, CString(pieces[i]))
  {
    ReceivedIsSeen(sink, pieces);
    var n := |pieces| - 1;
    ReceivedIsSeen(sink, pieces[..n]);
    if i < n { MessageIs(sink, pieces[..n], i); }
  }

  /**
    The sink of a session has got messages of at most 4095 bytes, and nothing of it went elsewhere.  For a text
    without zero bytes all but the last have exactly 4095, and the last is not empty.
   */
  ghost predicate InPieces(ds: seq<Delivery>, text: Text) {
    && (forall i :: 0 <= i < |ds| ==> ds[i].sink == text.sink && |ds[i].message| <= 4095)
    && ('\0' !in text.written ==>
          forall i :: 0 <= i < |ds| ==> ds[i].message != "" && (i < |ds| - 1 ==> |ds[i].message| == 4095))
  }

  /** What a session's sink has got, together, is the session's text if and only if that has no zero byte. */
  ghost predicate DeliveredIff(ds: seq<Delivery>, text: Text) {
    InPieces(ds, text) && (Received(ds) == text.written <==> '\0' !in text.written)
  }

  /** An object in use is held by a record. */
  lemma OwnerHeld(heap: seq<Object>, records: map<nat, Pointer>, free: seq<nat>, o: nat)
    requires Counted(heap, records, free, multiset{}) && o < |heap| && o !in free
    ensures exists r :: r in records && records[r] == Some(o)
  {
    assert Counts(heap[o], o, records, free, multiset{});
    var r :| r in Holders(records, o);
  }

  /** A session that no record holds has handed over its whole text. */
  lemma FinishedIsComplete(heap: seq<Object>, records: map<nat, Pointer>, free: seq<nat>, log: Log,
                           holds: map<nat, Pointer>, k: nat)
    requires Counted(heap, records, free, multiset{}) && Logged(heap, free, log) && Viewed(records, holds, log.current)
    requires k < |log.texts| && Finished(View(holds, log.texts), k)
    ensures Concat(log.sent[k]) == log.texts[k].written
    ensures Chunked(log.sent[k])
  {
    assert Session(heap, free, log, k);
    if log.owner[k].Some? { OwnerHeld(heap, records, free, log.owner[k].value); }
  }

  lemma {:induction false} NoZeroIn(pieces: seq<string>, i: nat)
    requires i < |pieces| && '\0' !in Concat(pieces)
    ensures '\0' !in pieces[i]
  {
    var n := |pieces| - 1;
    if i < n { NoZeroIn(pieces[..n], i); }
  }

  lemma MessagesInPieces(text: Text, pieces: seq<string>)
    requires Chunked(pieces) && Concat(pieces) == text.written
    ensures InPieces(Messages(text.sink, pieces), text)
  {
    ReceivedIsSeen(text.sink, pieces);
    var ds := Messages(text.sink, pieces);
    forall i | 0 <= i < |ds|
      ensures ds[i].sink == text.sink && |ds[i].message| <= 4095
      ensures '\0' !in text.written ==> ds[i].message != "" && (i < |ds| - 1 ==> |ds[i].message| == 4095)
    {
      MessageIs(text.sink, pieces, i);
      CStringWhole(pieces[i]);
      if '\0' !in text.written { NoZeroIn(pieces, i); }
    }
  }

  /** A text of at most 4095 bytes without a zero byte arrives as one message, and an empty one as none. */
  lemma ShortTextIsOneMessage(ds: seq<Delivery>, text: Text)
    requires DeliveredIff(ds, text) && |text.written| <= 4095 && '\0' !in text.written
    ensures ds == if text.written == "" then [] else [Delivery(text.sink, text.written)]
  {
    if |ds| == 1 {
      assert ds[..0] == [] && Received([]) == "" && Received(ds) == "" + ds[0].message == ds[0].message;
      assert ds[0] == Delivery(text.sink, text.written) && ds == [ds[0]];
    } else if |ds| > 1 {
      var n := |ds| - 1;
      assert |ds[0].message| == 4095;
      ReceivedLong(ds[..n]);
    }
  }

  lemma {:induction false} ReceivedLong(ds: seq<Delivery>)
    requires ds != [] && |ds[0].message| == 4095
    ensures |Received(ds)| >= 4095
  {
    var n := |ds| - 1;
    if n == 0 {
      assert ds[..0] == [];
    } else {
      ReceivedLong(ds[..n]);
    }
  }

  /** The deliveries of a finished session. */
  lemma FinishedIsDelivered(heap: seq<Object>, records: map<nat, Pointer>, free: seq<nat>, log: Log,
                            holds: map<nat, Pointer>,
                            output: seq<Delivery>, origin: seq<nat>, k: nat)
    requires Counted(heap, records, free, multiset{}) && Logged(heap, free, log) && Viewed(records, holds, log.current)
    requires Outputs(output, origin, log.texts, log.sent)
    requires k < |log.texts| && Finished(View(holds, log.texts), k)
    ensures DeliveredIff(Of(output, origin, k), log.texts[k])
  {
    FinishedIsComplete(heap, records, free, log, holds, k);
    SeenIff(log.sent[k]);
    ReceivedIsSeen(log.texts[k].sink, log.sent[k]);
    MessagesInPieces(log.texts[k], log.sent[k]);
  }

  /** An object that a record holds is in use. */
  lemma Held(heap: seq<Object>, records: map<nat, Pointer>, free: seq<nat>, pending: multiset<nat>, r: nat, o: nat)
    requires Counted(heap, records, free, pending) && r in records && records[r] == Some(o)
    ensures o < |heap| && o !in free && heap[o].advise.Some?
  {
    assert Counts(heap[o], o, records, free, pending);
    assert r in Holders(records, o);
  }

  // ------------------------------------------------------------------ changes

  /** The objects, the sessions and the output at one time. */
  datatype Snapshot = Snapshot(heap: seq<Object>, log: Log, output: seq<Delivery>, origin: seq<nat>)

  /** No object but o has changed its sink, its buffer or its session. */
  ghost predicate OthersKept(s: Snapshot, t: Snapshot, o: nat) {
    && |s.log.current| == |s.heap| <= |t.heap| == |t.log.current|
    && forall q :: 0 <= q < |s.heap| && q != o ==>
         && t.heap[q].advise == s.heap[q].advise && t.heap[q].buf == s.heap[q].buf
         && t.log.current[q] == s.log.current[q]
  }

  /** Session k has handed over some more pieces, and nothing else has gone to any sink. */
  ghost predicate Delivered(s: Snapshot, t: Snapshot, k: nat) {
    && k < |s.log.sent| == |t.log.sent| == |s.log.texts| == |t.log.texts| && s.log.sent[k] <= t.log.sent[k]
    && t.log.sent == s.log.sent[k := t.log.sent[k]] && t.log.texts[k].sink == s.log.texts[k].sink
    && t.output == s.output + Messages(t.log.texts[k].sink, t.log.sent[k][|s.log.sent[k]|..])
    && s.origin <= t.origin
  }

  /** A session of object o has begun. */
  ghost predicate Took(s: Snapshot, t: Snapshot, o: nat, sink: nat) {
    && OthersKept(s, t, o)
    && o < |t.heap| && t.heap[o].advise == Some(sink) && t.heap[o].useRef == 1 && t.heap[o].buf == ""
    && t.log.current[o] == |s.log.texts|
    && t.log.texts == s.log.texts + [Text(sink, "")] && t.log.sent == s.log.sent + [[]]
    && t.output == s.output && t.origin == s.origin
  }

  /** text was added to the session of object o, and the pieces that this completed went to its sink. */
  ghost predicate Wrote(s: Snapshot, t: Snapshot, o: nat, text: string) {
    && o < |s.heap| == |t.heap| && OthersKept(s, t, o) && t.heap[o].advise == s.heap[o].advise
    && t.log == s.log.(texts := Extended(s.log.texts, s.log.current[o], text), sent := t.log.sent)
    && Delivered(s, t, s.log.current[o])
  }

  lemma DeliveredNothing(s: Snapshot, k: nat)
    requires k < |s.log.sent| == |s.log.texts|
    ensures Delivered(s, s, k)
  {
    assert s.log.sent[k][|s.log.sent[k]|..] == [];
  }

  lemma DeliveredOne(s: Snapshot, t: Snapshot, k: nat, piece: string)
    requires k < |s.log.sent| == |s.log.texts| == |t.log.texts| && t.log.texts[k].sink == s.log.texts[k].sink
    requires t.log.sent == s.log.sent[k := s.log.sent[k] + [piece]]
    requires t.output == s.output + [Delivery(s.log.texts[k].sink, CString(piece))] && s.origin <= t.origin
    ensures Delivered(s, t, k)
  {
    MessagesAppend(s.log.texts[k].sink, [], piece);
    assert [] + [piece] == [piece];
    assert t.log.sent[k][|s.log.sent[k]|..] == [piece];
  }

  lemma DeliveredTwice(s: Snapshot, t: Snapshot, u: Snapshot, k: nat)
    requires Delivered(s, t, k) && Delivered(t, u, k)
    ensures Delivered(s, u, k)
  {
    var sink := u.log.texts[k].sink;
    MoreMessages(sink, s.log.sent[k], t.log.sent[k], u.log.sent[k]);
    assert s.log.sent[k := t.log.sent[k]][k := u.log.sent[k]] == s.log.sent[k := u.log.sent[k]];
    Append(s.output, Messages(sink, t.log.sent[k][|s.log.sent[k]|..]),
        Messages(sink, u.log.sent[k][|t.log.sent[k]|..]));
  }

  lemma MoreMessages(sink: nat, a: seq<string>, b: seq<string>, c: seq<string>)
    requires a <= b <= c
    ensures a <= c && Messages(sink, c[|a|..]) == Messages(sink, b[|a|..]) + Messages(sink, c[|b|..])
  {
    assert c[|a|..] == b[|a|..] + c[|b|..];
    MessagesConcat(sink, b[|a|..], c[|b|..]);
  }

  lemma WroteNothing(s: Snapshot, o: nat)
    requires |s.log.current| == |s.heap| && o < |s.heap| && s.log.current[o] < |s.log.sent| == |s.log.texts|
    ensures Wrote(s, s, o, "")
  {
    var k := s.log.current[o];
    DeliveredNothing(s, k);
    assert s.log.texts[k].written + "" == s.log.texts[k].written;
  }

  lemma WroteTwice(s: Snapshot, t: Snapshot, u: Snapshot, o: nat, a: string, b: string)
    requires Wrote(s, t, o, a) && Wrote(t, u, o, b)
    ensures Wrote(s, u, o, a + b)
  {
    DeliveredTwice(s, t, u, s.log.current[o]);
    ExtendedTwice(s.log.texts, s.log.current[o], a, b);
  }

  // ------------------------------------------------------------------ the pool

  class Pool {
    var heap: seq<Object>
    var cache: Pointer
    var records: map<nat, Pointer>      // the live records, by name
    var output: seq<Delivery>
    ghost var free: seq<nat>
    ghost var log: Log
    ghost var holds: map<nat, Pointer>  // the session of each record
    ghost var origin: seq<nat>          // the session of each delivery

    ghost predicate Inv(pending: multiset<nat>)
      reads this
    {
      && FreeList(heap, cache, free)
      && Counted(heap, records, free, pending)
      && Logged(heap, free, log)
      && Viewed(records, holds, log.current)
      && Outputs(output, origin, log.texts, log.sent)
    }

    ghost predicate Valid()
      reads this
    {
      Inv(multiset{})
    }

    ghost function Now(): Snapshot
      reads this
    {
      Snapshot(heap, log, output, origin)
    }

    ghost function CurrentView(): View
      reads this
    {
      View(holds, log.texts)
    }

    constructor ()
      ensures Valid() && CurrentView() == ViewAfter([], []) && records == map[] && output == []
    {
      heap, cache, records, output := [], None, map[], [];
      free, log, holds, origin := [], Log([], [], [], []), map[], [];
    }

    /** Object::get and Global::get; an exhausted memory shows as a null pointer. */
    method Get(sink: nat, outOfMemory: bool, ghost pending: multiset<nat>) returns (p: Pointer)
      requires Inv(pending)
      modifies this`heap, this`cache, this`free, this`log
      ensures Inv(pending + One(p))
      ensures p.None? <==> old(cache).None? && outOfMemory
      ensures p.None? ==> heap == old(heap) && log == old(log)
      ensures p.Some? ==> Took(old(Now()), Now(), p.value, sink)
      ensures if old(cache).Some? then p == old(cache) && |heap| == |old(heap)|
              else |heap| == |old(heap)| + if outOfMemory then 0 else 1
    {
      if cache.Some? {
        p := cache;
        TakeCached(sink, pending);
      } else if outOfMemory {
        p := None;
      } else {
        p := Some(|heap|);
        Allocate(sink, pending);
      }
    }

    method TakeCached(sink: nat, ghost pending: multiset<nat>)
      requires Inv(pending) && cache.Some?
      modifies this`heap, this`cache, this`free, this`log
      ensures Inv(pending + multiset{old(cache).value}) && Took(old(Now()), Now(), old(cache).value, sink)
      ensures |heap| == |old(heap)|
    {
      var o := cache.value;
      assert Counts(heap[o], o, records, free, pending);
      ghost var before, current := heap, log.current[o := |log.texts|];
      var x := heap[o].(useRef := heap[o].useRef + 1, advise := Some(sink));
      CountedTaken(heap, records, free, pending, x);
      LogTaken(heap, free, log, sink, x);
      ViewedKept(records, holds, log.current, current, o);
      OutputsBegun(output, origin, log.texts, log.sent, sink);
      cache := heap[o].next;
      heap := heap[o := x];
      FreeListKept(before, heap, cache, free[1..]);
      free, log := free[1..], Begun(log, sink, o, current);
    }

    method Allocate(sink: nat, ghost pending: multiset<nat>)
      requires Inv(pending)
      modifies this`heap, this`log
      ensures Inv(pending + multiset{|old(heap)|}) && Took(old(Now()), Now(), |old(heap)|, sink)
      ensures |heap| == |old(heap)| + 1
    {
      var x := Object(None, 1, Some(sink), "");
      ghost var n, before, current := |heap|, heap, log.current + [|log.texts|];
      if n in free { FreeInHeap(heap, cache, free, n); }
      CountedNew(heap, records, cache, free, pending, x);
      LogNew(heap, free, log, sink, x);
      NoHolders(heap, records, free, pending, n);
      ViewedKept(records, holds, log.current, current, n);
      OutputsBegun(output, origin, log.texts, log.sent, sink);
      heap := heap + [x];
      FreeListKept(before, heap, cache, free);
      log := Begun(log, sink, n, current);
    }

    /** ref */
    method Ref(o: nat, ghost pending: multiset<nat>)
      requires Inv(pending) && o < |heap| && o !in free
      modifies this`heap
      ensures Inv(pending + multiset{o}) && |heap| == |old(heap)|
      ensures heap == old(heap)[o := old(heap)[o].(useRef := old(heap)[o].useRef + 1)]
    {
      assert Counts(heap[o], o, records, free, pending);
      ghost var before := heap;
      var x := heap[o].(useRef := heap[o].useRef + 1);
      CountedUpdate(heap, records, free, pending, pending + multiset{o}, o, x);
      LogObject(heap, free, log, o, x);
      heap := heap[o := x];
      FreeListKept(before, heap, cache, free);
    }

    /** What both overflow and release do first: the buffer is handed to the sink and emptied. */
    method HandOver(o: nat)
      requires o < |heap| && o !in free && heap[o].buf != "" && Logged(heap, free, log) && InSession(log, o)
      requires |heap[o].buf| == ROOM || heap[o].useRef == 0
      requires Outputs(output, origin, log.texts, log.sent) && heap[o].advise == Some(log.texts[log.current[o]].sink)
      modifies this`heap, this`output, this`log, this`origin
      ensures Logged(heap, free, log) && Outputs(output, origin, log.texts, log.sent)
      ensures heap == old(heap)[o := old(heap)[o].(buf := "")]
      ensures var k := old(log).current[o];
              && log == old(log).(sent := old(log).sent[k := old(log).sent[k] + [old(heap)[o].buf]])
              && output == old(output) + [Delivery(old(log).texts[k].sink, CString(old(heap)[o].buf))]
              && origin == old(origin) + [k]
    {
      var x := heap[o];
      ghost var k := log.current[o];
      LogHanded(heap, free, log, o);
      OutputsHanded(output, origin, log.texts, log.sent, k, x.buf);
      output := output + [Delivery(x.advise.value, CString(x.buf))];
      origin := origin + [k];
      heap := heap[o := x.(buf := "")];
      log := log.(sent := log.sent[k := log.sent[k] + [x.buf]]);
    }

    /** One character goes into a buffer that has room. */
    method Store(o: nat, c: char)
      requires Valid() && o < |heap| && o !in free && |heap[o].buf| < ROOM
      modifies this`heap, this`log
      ensures Valid() && heap == old(heap)[o := old(heap)[o].(buf := old(heap)[o].buf + [c])]
      ensures o < |old(log).current| && log == old(log).(texts := Extended(old(log).texts, old(log).current[o], [c]))
    {
      assert Counts(heap[o], o, records, free, multiset{});
      ghost var before, k := heap, log.current[o];
      var x := heap[o].(buf := heap[o].buf + [c]);
      CountedUpdate(heap, records, free, multiset{}, multiset{}, o, x);
      LogStored(heap, free, log, o, c);
      OutputsExtended(output, origin, log.texts, log.sent, k, [c]);
      heap := heap[o := x];
      log := log.(texts := Extended(log.texts, k, [c]));
      FreeListKept(before, heap, cache, free);
    }

    /** overflow: the full buffer is handed over, and the character starts the next one. */
    method Overflow(o: nat, c: char)
      requires Valid() && o < |heap| && o !in free && |heap[o].buf| == ROOM
      modifies this`heap, this`output, this`log, this`origin
      ensures Valid() && heap == old(heap)[o := old(heap)[o].(buf := [c])]
      ensures o < |old(log).current| && InSession(old(log), o)
      ensures |old(log).sent| == |old(log).texts| == |old(log).owner|
      ensures var k := old(log).current[o];
              && log == old(log).(texts := Extended(old(log).texts, k, [c]),
                  sent := old(log).sent[k := old(log).sent[k] + [old(heap)[o].buf]])
              && output == old(output) + [Delivery(old(log).texts[k].sink, CString(old(heap)[o].buf))]
              && origin == old(origin) + [k]
    {
      assert Counts(heap[o], o, records, free, multiset{});
      InUse(heap, free, log, o);
      CountedUpdate(heap, records, free, multiset{}, multiset{}, o, heap[o].(buf := ""));
      ghost var before := heap;
      HandOver(o);
      FreeListKept(before, heap, cache, free);
      assert heap[o].buf + [c] == [c];
      Store(o, c);
    }

    /** sputc */
    method PutChar(o: nat, c: char)
      requires Valid() && o < |heap| && o !in free
      modifies this`heap, this`output, this`log, this`origin
      ensures Valid() && Wrote(old(Now()), Now(), o, [c])
    {
      InUse(heap, free, log, o);
      ghost var s, k := Now(), log.current[o];
      if |heap[o].buf| < ROOM {
        Store(o, c);
        DeliveredNothing(s, k);
      } else {
        Overflow(o, c);
        DeliveredOne(s, Now(), k, s.heap[o].buf);
      }
    }

    /** Writing text to the stream of a record; without an object it goes to the standard output. */
    method Write(r: nat, text: string)
      requires Valid() && r in records
      modifies this`heap, this`output, this`log, this`origin
      ensures Valid() && CurrentView() == Applied(old(CurrentView()), WriteText(r, text), false)
      ensures records[r].None? ==> Now() == old(Now())
      ensures records[r].Some? ==> Wrote(old(Now()), Now(), records[r].value, text)
    {
      if records[r].Some? {
        var o := records[r].value;
        Held(heap, records, free, multiset{}, r, o);
        WriteAll(o, text);
      }
    }

    method WriteAll(o: nat, text: string)
      requires Valid() && o < |heap| && o !in free
      modifies this`heap, this`output, this`log, this`origin
      ensures Valid() && Wrote(old(Now()), Now(), o, text)
    {
      InUse(heap, free, log, o);
      WroteNothing(Now(), o);
      var i := 0;
      assert text[..0] == "";
      while i < |text|
        invariant i <= |text| && Valid() && Wrote(old(Now()), Now(), o, text[..i])
      {
        WriteOne(o, text, i, old(Now()));
        i := i + 1;
      }
      assert text[..|text|] == text;
    }

    method WriteOne(o: nat, text: string, i: nat, ghost start: Snapshot)
      requires Valid() && o < |heap| && o !in free && i < |text| && Wrote(start, Now(), o, text[..i])
      modifies this`heap, this`output, this`log, this`origin
      ensures Valid() && Wrote(start, Now(), o, text[..i + 1])
    {
      ghost var before := Now();
      PutChar(o, text[i]);
      WroteTwice(start, before, Now(), o, text[..i], [text[i]]);
      assert text[..i] + [text[i]] == text[..i + 1];
    }

    /** The buffer of an object, if there is something in it, goes to the sink. */
    method Flush(o: nat)
      requires o < |heap| && o !in free && Logged(heap, free, log) && Outputs(output, origin, log.texts, log.sent)
      requires heap[o].useRef == 0
      modifies this`heap, this`output, this`log, this`origin
      ensures Logged(heap, free, log) && Outputs(output, origin, log.texts, log.sent)
      ensures heap == old(heap)[o := old(heap)[o].(buf := "")] && log == old(log).(sent := log.sent)
      ensures o < |log.current| && Delivered(old(Now()), Now(), log.current[o])
    {
      InUse(heap, free, log, o);
      ghost var s, k := Now(), log.current[o];
      if heap[o].buf != "" {
        HandOver(o);
        DeliveredOne(s, Now(), k, s.heap[o].buf);
      } else {
        DeliveredNothing(s, k);
      }
    }

    /** release: what is left in the buffer is handed over, and the object goes back to the free list. */
    method Release(o: nat, ghost pending: multiset<nat>)
      requires o < |heap| && o !in free && heap[o].useRef == 0
      requires FreeList(heap, cache, free) && Logged(heap, free, log) && Outputs(output, origin, log.texts, log.sent)
      requires Counted(heap[o := heap[o].(useRef := 1)], records, free, pending) && o in pending
      requires Viewed(records, holds, log.current)
      modifies this`heap, this`cache, this`output, this`free, this`log, this`origin
      ensures Inv(pending - multiset{o}) && |heap| == |old(heap)| && o in free && OthersKept(old(Now()), Now(), o)
      ensures log.texts == old(log).texts && log.current == old(log).current
      ensures o < |old(log).current| && Delivered(old(Now()), Now(), old(log).current[o])
      ensures Concat(log.sent[log.current[o]]) == log.texts[log.current[o]].written
    {
      ghost var before := heap;
      Flush(o);
      PutBack(o, before, pending);
    }

    /** Global::put, for an object that has handed over its buffer. */
    method PutBack(o: nat, ghost before: seq<Object>, ghost pending: multiset<nat>)
      requires o < |heap| == |before| && o !in free && heap[o].buf == "" && heap[o].useRef == 0
      requires heap == before[o := heap[o]] && FreeList(before, cache, free) && Logged(heap, free, log)
      requires before[o].useRef == 0 && Counted(before[o := before[o].(useRef := 1)], records, free, pending)
      requires o in pending
      requires Viewed(records, holds, log.current) && Outputs(output, origin, log.texts, log.sent)
      modifies this`heap, this`cache, this`free, this`log
      ensures Inv(pending - multiset{o}) && |heap| == |old(heap)| && o in free && OthersKept(old(Now()), Now(), o)
      ensures log == old(log).(owner := log.owner)
      ensures o < |log.current| && log.current[o] < |log.texts|
      ensures Concat(log.sent[log.current[o]]) == log.texts[log.current[o]].written
    {
      InUse(heap, free, log, o);
      var x := heap[o].(advise := None, next := cache);
      CountedFreed(before[o := before[o].(useRef := 1)], records, free, pending, o, x);
      assert before[o := before[o].(useRef := 1)][o := x] == heap[o := x];
      LogEnded(heap, free, log, o, x);
      heap := heap[o := x];
      FreeListKept(before, heap, cache, free);
      cache := Some(o);
      free := [o] + free;
      log := log.(owner := log.owner[log.current[o] := None]);
      assert free[1..] == old(free);
    }

    /** unref: the last reference to go ends the session. */
    method Unref(o: nat, ghost pending: multiset<nat>)
      requires Inv(pending) && o in pending
      modifies this`heap, this`cache, this`output, this`free, this`log, this`origin
      ensures Inv(pending - multiset{o}) && |heap| == |old(heap)| && OthersKept(old(Now()), Now(), o)
      ensures log.texts == old(log).texts && log.current == old(log).current
      ensures o < |log.current| && Delivered(old(Now()), Now(), log.current[o])
      ensures o in free <==> old(heap)[o].useRef == 1
      ensures o !in free ==> heap[o].advise == old(heap)[o].advise
    {
      assert Counts(heap[o], o, records, free, pending);
      InUse(heap, free, log, o);
      if heap[o].useRef == 1 {
        ghost var before := heap;
        var x := heap[o].(useRef := 0);
        LogObject(heap, free, log, o, x);
        heap := heap[o := x];
        FreeListKept(before, heap, cache, free);
        assert heap[o := heap[o].(useRef := 1)] == before;
        Release(o, pending);
      } else {
        DeliveredNothing(Now(), log.current[o]);
        Lower(o, pending);
      }
    }

    /** One of several references is gone. */
    method Lower(o: nat, ghost pending: multiset<nat>)
      requires Inv(pending) && o in pending && o < |heap| && o !in free && heap[o].useRef > 1
      modifies this`heap
      ensures Inv(pending - multiset{o}) && heap == old(heap)[o := old(heap)[o].(useRef := old(heap)[o].useRef - 1)]
    {
      assert Counts(heap[o], o, records, free, pending);
      ghost var before := heap;
      var x := heap[o].(useRef := heap[o].useRef - 1);
      LogObject(heap, free, log, o, x);
      CountedUpdate(heap, records, free, pending, pending - multiset{o}, o, x);
      heap := heap[o := x];
      FreeListKept(before, heap, cache, free);
    }

    /** A record lets go of its object. */
    method Drop(r: nat, ghost pending: multiset<nat>)
      requires Inv(pending) && r in records
      modifies this`heap, this`cache, this`records, this`output, this`free, this`log, this`origin, this`holds
      ensures Inv(pending) && records == old(records) - {r} && holds == old(holds) - {r}
      ensures old(records)[r].None? ==> Now() == old(Now())
      ensures old(records)[r].Some? ==> LetGo(old(Now()), Now(), old(records)[r].value)
      ensures old(records)[r].Some? && old(records)[r].value !in free ==>
                SameSink(old(Now()), Now(), old(records)[r].value)
    {
      var p := records[r];
      Abandon(heap, records, free, pending, r);
      if p.Some? { Held(heap, records, free, pending, r, p.value); }
      ViewedDropped(records, holds, log.current, r);
      records := records - {r};
      holds := holds - {r};
      if p.Some? {
        Unref(p.value, pending + multiset{p.value});
        assert pending + multiset{p.value} - multiset{p.value} == pending;
      } else {
        assert pending + One(p) == pending;
      }
    }

    /** A new record takes over a reference. */
    method Keep(r: nat, p: Pointer)
      requires Inv(One(p)) && r !in records
      modifies this`records, this`holds
      ensures Valid() && records == old(records)[r := p] && holds == old(holds)[r := SessionOf(p, log.current)]
    {
      assert multiset{} + One(p) == One(p);
      Adopt(heap, records, free, multiset{}, r, p);
      if p.Some? { assert p.value in One(p); }
      records := records[r := p];
      holds := holds[r := SessionOf(p, log.current)];
    }

    /** A further reference to the object of a record, if it has one. */
    method Share(from: nat) returns (p: Pointer)
      requires Valid() && from in records
      modifies this`heap
      ensures p == records[from] && Inv(One(p)) && Shared(old(Now()), Now())
    {
      p := records[from];
      if p.Some? {
        Held(heap, records, free, multiset{}, from, p.value);
        Ref(p.value, multiset{});
        assert multiset{} + multiset{p.value} == One(p);
      }
    }

    /** Record(log) */
    method Create(r: nat, sink: nat, outOfMemory: bool)
      requires Valid() && r !in records
      modifies this
      ensures Valid() && r in records && records == old(records)[r := records[r]]
      ensures CurrentView() == Applied(old(CurrentView()), CreateRecord(r, sink, outOfMemory), records[r].None?)
      ensures records[r].None? <==> old(cache).None? && outOfMemory
      ensures records[r].None? ==> Now() == old(Now())
      ensures records[r].Some? ==> Took(old(Now()), Now(), records[r].value, sink)
      ensures if old(cache).Some? then records[r] == old(cache) && |heap| == |old(heap)|
              else |heap| == |old(heap)| + if outOfMemory then 0 else 1
    {
      var p := Get(sink, outOfMemory, multiset{});
      assert multiset{} + One(p) == One(p);
      Keep(r, p);
    }

    /** Record(rhs) */
    method Copy(r: nat, from: nat)
      requires Valid() && r !in records && from in records
      modifies this`heap, this`records, this`holds
      ensures Valid() && records == old(records)[r := old(records)[from]]
      ensures CurrentView() == Applied(old(CurrentView()), CopyRecord(r, from), false)
      ensures Shared(old(Now()), Now())
    {
      var p := Share(from);
      Keep(r, p);
    }

    /** ~Record */
    method Destroy(r: nat)
      requires Valid() && r in records
      modifies this`heap, this`cache, this`records, this`output, this`free, this`log, this`origin, this`holds
      ensures Valid() && records == old(records) - {r}
      ensures CurrentView() == Applied(old(CurrentView()), DestroyRecord(r), false)
      ensures old(records)[r].None? ==> Now() == old(Now())
      ensures old(records)[r].Some? ==> LetGo(old(Now()), Now(), old(records)[r].value)
      ensures old(records)[r].Some? && old(records)[r].value !in free ==>
                SameSink(old(Now()), Now(), old(records)[r].value)
    {
      Drop(r, multiset{});
    }

    /**
      operator=: the new object is referenced before the old one is let go, so that assigning a record to itself is
      harmless.
     */
    method Assign(r: nat, from: nat)
      requires Valid() && r in records && from in records
      modifies this`heap, this`cache, this`records, this`output, this`free, this`log, this`origin, this`holds
      ensures Valid() && records == old(records)[r := old(records)[from]]
      ensures CurrentView() == Applied(old(CurrentView()), AssignRecord(r, from), false)
      ensures old(records)[r].None? ==> Shared(old(Now()), Now())
      ensures old(records)[r].Some? ==> LetGo(old(Now()), Now(), old(records)[r].value)
      ensures old(records)[r].Some? && old(records)[r].value !in free ==>
                SameSink(old(Now()), Now(), old(records)[r].value)
    {
      Readded(records, r, records[from]);
      Readded(holds, r, holds[from]);
      var p := Share(from);
      ghost var shared := Now();
      Drop(r, One(p));
      SharedThenLetGo(old(Now()), shared, Now(), old(records)[r]);
      Keep(r, p);
    }

    /** One operation on records; failed says that a new record has got no object. */
    method Do(op: Operation) returns (ghost failed: bool)
      requires Valid() && LegalOperation(CurrentView().holds.Keys, op)
      modifies this
      ensures Valid() && CurrentView() == Applied(old(CurrentView()), op, failed)
      ensures failed ==> op.CreateRecord? && op.outOfMemory
      ensures old(output) <= output && old(origin) <= origin
    {
      failed := false;
      match op
      case CreateRecord(r, sink, outOfMemory) =>
        Create(r, sink, outOfMemory);
        failed := records[r].None?;
      case CopyRecord(r, from) => Copy(r, from);
      case AssignRecord(r, from) => Assign(r, from);
      case DestroyRecord(r) => Destroy(r);
      case WriteText(r, text) => Write(r, text);
    }
  }

  /** Only reference counts have changed. */
  ghost predicate Shared(s: Snapshot, t: Snapshot) {
    && |t.heap| == |s.heap| && t == s.(heap := t.heap)
    && forall q :: 0 <= q < |s.heap| ==> t.heap[q] == s.heap[q].(useRef := t.heap[q].useRef)
  }

  /** Object o has lost a reference, and with the last one handed over its buffer. */
  ghost predicate LetGo(s: Snapshot, t: Snapshot, o: nat) {
    && |t.heap| == |s.heap| && OthersKept(s, t, o) && o < |t.log.current|
    && t.log.texts == s.log.texts && t.log.current == s.log.current
    && Delivered(s, t, t.log.current[o])
  }

  ghost predicate SameSink(s: Snapshot, t: Snapshot, o: nat) {
    o < |s.heap| && o < |t.heap| && t.heap[o].advise == s.heap[o].advise
  }

  lemma SharedThenLetGo(s: Snapshot, t: Snapshot, u: Snapshot, p: Pointer)
    requires Shared(s, t)
    ensures p.Some? && LetGo(t, u, p.value) && |s.log.current| == |s.heap| ==> LetGo(s, u, p.value)
    ensures p.Some? && SameSink(t, u, p.value) ==> SameSink(s, u, p.value)
  {
  }

  lemma ViewedDropped(records: map<nat, Pointer>, holds: map<nat, Pointer>, current: seq<nat>, r: nat)
    requires Viewed(records, holds, current)
    ensures Viewed(records - {r}, holds - {r}, current)
  {
  }

  lemma Readded(records: map<nat, Pointer>, r: nat, p: Pointer)
    ensures (records - {r})[r := p] == records[r := p]
  {
  }

  lemma NoHolders(heap: seq<Object>, records: map<nat, Pointer>, free: seq<nat>, pending: multiset<nat>, n: nat)
    requires Counted(heap, records, free, pending) && n >= |heap|
    ensures Holders(records, n) == {}
  {
  }

  /** An object in use belongs to the sink of its session. */
  lemma InUse(heap: seq<Object>, free: seq<nat>, log: Log, o: nat)
    requires Logged(heap, free, log) && o < |heap| && o !in free
    ensures InSession(log, o) && |log.texts| == |log.owner|
    ensures Open(heap[o], log.texts[log.current[o]], log.sent[log.current[o]])
  {
    assert InSession(log, o);
    assert Session(heap, free, log, log.current[o]);
  }

  lemma ExtendedTwice(texts: seq<Text>, k: nat, a: string, b: string)
    ensures Extended(Extended(texts, k, a), k, b) == Extended(texts, k, a + b)
  {
    if k < |texts| { assert texts[k].written + a + b == texts[k].written + (a + b); }
  }

  lemma {:induction false} MessagesConcat(sink: nat, a: seq<string>, b: seq<string>)
    ensures Messages(sink, a + b) == Messages(sink, a) + Messages(sink, b)
    decreases |b|
  {
    if b == [] {
      assert a + b == a;
    } else {
      var ab := a + b;
      assert ab[..|ab| - 1] == a + b[..|b| - 1];
      MessagesConcat(sink, a, b[..|b| - 1]);
    }
  }

  lemma LiveKeys(ops: seq<Operation>, failures: seq<bool>)
    requires |failures| == |ops|
    ensures Legal(ops) ==> ViewAfter(ops, failures).holds.Keys == Live(ops)
  {
    if ops == [] {
    } else {
      var n := |ops| - 1;
      LiveKeys(ops[..n], failures[..n]);
      assert Legal(ops) ==> Legal(ops[..n]) by { PrefixLegal(ops, n); }
      assert Legal(ops) ==> LegalOperation(Live(ops[..n]), ops[n]);
    }
  }

  lemma PrefixLegal(ops: seq<Operation>, n: nat)
    requires n <= |ops|
    ensures Legal(ops) ==> Legal(ops[..n])
  {
    forall i | 0 <= i < n ensures ops[..n][..i] == ops[..i] { }
  }

  /** Every finished session has been delivered. */
  ghost predicate AllDelivered(v: View, output: seq<Delivery>, origin: seq<nat>)
    requires |origin| == |output|
  {
    forall k :: 0 <= k < |v.texts| && Finished(v, k) ==> DeliveredIff(Of(output, origin, k), v.texts[k])
  }

  lemma ValidDelivered(pool: Pool)
    requires pool.Valid()
    ensures |pool.origin| == |pool.output| && AllDelivered(pool.CurrentView(), pool.output, pool.origin)
  {
    forall k | 0 <= k < |pool.log.texts| && Finished(pool.CurrentView(), k)
      ensures DeliveredIff(Of(pool.output, pool.origin, k), pool.log.texts[k])
    {
      FinishedIsDelivered(pool.heap, pool.records, pool.free, pool.log, pool.holds, pool.output, pool.origin, k);
    }
  }

  /**
    In every run of creating, copying, assigning, destroying and writing records: each session that no
    record holds any more has gone to the sink it was created with, in messages of 4095 bytes and a last one, which
    together are the text written to its records if and only if that text has no zero byte.
   */
  method Perform(ops: seq<Operation>) returns (pool: Pool, ghost failures: seq<bool>)
    requires Legal(ops)
    ensures fresh(pool) && pool.Valid() && |failures| == |ops| && pool.CurrentView() == ViewAfter(ops, failures)
    ensures FailuresFit(ops, failures)
    ensures |pool.origin| == |pool.output|
    ensures AllDelivered(ViewAfter(ops, failures), pool.output, pool.origin)
  {
    pool, failures := PerformAll(ops);
    ValidDelivered(pool);
  }

  /** Only constructions fail, and only for want of memory. */
  ghost predicate FailuresFit(ops: seq<Operation>, failures: seq<bool>) {
    |failures| <= |ops| && forall i :: 0 <= i < |failures| && failures[i] ==> ops[i].CreateRecord? && ops[i].outOfMemory
  }

  lemma FitsMore(ops: seq<Operation>, failures: seq<bool>, failed: bool)
    requires FailuresFit(ops, failures) && |failures| < |ops|
    requires failed ==> ops[|failures|].CreateRecord? && ops[|failures|].outOfMemory
    ensures FailuresFit(ops, failures + [failed])
  {
  }

  method PerformAll(ops: seq<Operation>) returns (pool: Pool, ghost failures: seq<bool>)
    requires Legal(ops)
    ensures fresh(pool) && pool.Valid() && |failures| == |ops| && pool.CurrentView() == ViewAfter(ops, failures)
    ensures FailuresFit(ops, failures)
  {
    pool := new Pool();
    failures := [];
    var i := 0;
    while i < |ops|
      invariant i <= |ops| && |failures| == i && fresh(pool) && pool.Valid()
      invariant pool.CurrentView() == ViewAfter(ops[..i], failures)
      invariant FailuresFit(ops, failures)
    {
      ghost var failed := PerformNext(pool, ops, i, failures);
      FitsMore(ops, failures, failed);
      failures := failures + [failed];
      i := i + 1;
    }
    assert ops[..|ops|] == ops;
  }

  method PerformNext(pool: Pool, ops: seq<Operation>, i: nat, ghost failures: seq<bool>) returns (ghost failed: bool)
    requires Legal(ops) && i < |ops| && |failures| == i
    requires pool.Valid() && pool.CurrentView() == ViewAfter(ops[..i], failures)
    modifies pool
    ensures pool.Valid() && pool.CurrentView() == ViewAfter(ops[..i + 1], failures + [failed])
    ensures failed ==> ops[i].CreateRecord? && ops[i].outOfMemory
  {
    NextLegal(ops, failures, i);
    failed := pool.Do(ops[i]);
    NextView(ops, failures, i, failed);
  }

  lemma NextLegal(ops: seq<Operation>, failures: seq<bool>, i: nat)
    requires Legal(ops) && i < |ops| && |failures| == i
    ensures LegalOperation(ViewAfter(ops[..i], failures).holds.Keys, ops[i])
  {
    PrefixLegal(ops, i);
    LiveKeys(ops[..i], failures);
  }

  lemma NextView(ops: seq<Operation>, failures: seq<bool>, i: nat, failed: bool)
    requires i < |ops| && |failures| == i
    ensures ViewAfter(ops[..i + 1], failures + [failed]) == Applied(ViewAfter(ops[..i], failures), ops[i], failed)
  {
    assert ops[..i + 1][..i] == ops[..i] && (failures + [failed])[..i] == failures;
  }

  // ------------------------------------------------------------------ laws of the plain specification

  /** Whatever is written through a copy is written through the original, and the other way round. */
  lemma CopiesShare(v: View, r: nat, from: nat, text: string)
    requires r !in v.holds && from in v.holds
    ensures var after := Applied(v, CopyRecord(r, from), false);
            Applied(after, WriteText(r, text), false) == Applied(after, WriteText(from, text), false)
  {
  }

  /** The same after an assignment, for which the record may have held another session before. */
  lemma AssignedShare(v: View, r: nat, from: nat, text: string)
    requires r in v.holds && from in v.holds
    ensures var after := Applied(v, AssignRecord(r, from), false);
            && Applied(after, WriteText(r, text), false) == Applied(after, WriteText(from, text), false)
            && after.texts == v.texts && Applied(v, AssignRecord(r, r), false) == v
  {
    assert v.holds[r := v.holds[r]] == v.holds;
  }

  /** Destroying a record undoes its construction or its copying, but for the text of a new session. */
  lemma DestroyUndoes(v: View, r: nat, from: nat, sink: nat)
    requires r !in v.holds && from in v.holds
    ensures Applied(Applied(v, CopyRecord(r, from), false), DestroyRecord(r), false) == v
    ensures Applied(Applied(v, CreateRecord(r, sink, false), false), DestroyRecord(r), false)
         == View(v.holds, v.texts + [Text(sink, "")])
  {
    assert v.holds[r := SessionIn(v, from)] - {r} == v.holds;
    assert v.holds[r := Some(|v.texts|)] - {r} == v.holds;
  }

  /** Writing twice is writing both at once. */
  lemma WritesJoin(v: View, r: nat, a: string, b: string)
    ensures Applied(Applied(v, WriteText(r, a), false), WriteText(r, b), false)
         == Applied(v, WriteText(r, a + b), false)
  {
    if SessionIn(v, r).Some? { ExtendedTwice(v.texts, SessionIn(v, r).value, a, b); }
  }

  /** A new record has a session of its own: what is written to it changes no other text. */
  lemma NewIsSeparate(v: View, r: nat, sink: nat, text: string)
    ensures Applied(Applied(v, CreateRecord(r, sink, false), false), WriteText(r, text), false).texts
         == v.texts + [Text(sink, text)]
  {
    assert "" + text == text;
  }

  const CUT_RUN := [CreateRecord(0, 7, false), WriteText(0, "a\0b"), DestroyRecord(0)]

  lemma CutLegal()
    ensures Legal(CUT_RUN)
  {
    var ops := CUT_RUN;
    assert Live(ops[..0]) == {};
    assert ops[..1][..0] == ops[..0] && Live(ops[..1]) == {0};
    assert ops[..2][..1] == ops[..1] && Live(ops[..2]) == {0};
  }

  lemma CutSteps(text: string)
    ensures Applied(View(map[], []), CreateRecord(0, 7, false), false) == View(map[0 := Some(0)], [Text(7, "")])
    ensures Applied(View(map[0 := Some(0)], [Text(7, "")]), WriteText(0, text), false)
              == View(map[0 := Some(0)], [Text(7, text)])
    ensures Applied(View(map[0 := Some(0)], [Text(7, text)]), DestroyRecord(0), false) == View(map[], [Text(7, text)])
  {
    assert "" + text == text;
    var held: map<nat, Pointer> := map[0 := Some(0)];
    assert held - {0} == map[];
  }

  lemma CutView(failures: seq<bool>)
    requires |failures| == 3 && forall i :: 0 <= i < 3 ==> !failures[i]
    ensures ViewAfter(CUT_RUN, failures) == View(map[], [Text(7, "a\0b")])
  {
    var ops := CUT_RUN;
    CutWritten(ops);
    CutSteps("a\0b");
    NextView(ops, [false, false], 2, false);
    assert [false, false] + [false] == failures && ops[..3] == ops;
  }

  lemma CutWritten(ops: seq<Operation>)
    requires ops == CUT_RUN
    ensures ViewAfter(ops[..2], [false, false]) == View(map[0 := Some(0)], [Text(7, "a\0b")])
  {
    var none: seq<bool> := [];
    CutSteps("a\0b");
    NextView(ops, none, 0, false);
    assert none + [false] == [false] && [false] + [false] == [false, false];
    assert ViewAfter(ops[..0], none) == View(map[], []);
    NextView(ops, [false], 1, false);
  }

  /** A record that a zero byte is written to: its sink does not get the text. */
  method CutAtZero() returns (pool: Pool)
    ensures fresh(pool) && |pool.origin| == |pool.output| && pool.CurrentView().texts == [Text(7, "a\0b")]
    ensures Received(Of(pool.output, pool.origin, 0)) != "a\0b"
  {
    CutLegal();
    ghost var failures;
    pool, failures := Perform(CUT_RUN);
    CutView(failures);
    ghost var text: string := "a\0b";
    assert text[1] == '\0';
    assert DeliveredIff(Of(pool.output, pool.origin, 0), Text(7, text));
  }
}
