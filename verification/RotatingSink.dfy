/**
  The rotating file sink of file_sinks.h over a file system that maps names to contents.
  Whatever is logged, the files read from the oldest to the newest are a contiguous suffix
  of the messages, none of them cut.
 */
module RotatingSink {
  import opened Wrappers
  import opened Numerals

  type FileSystem = map<string, string>

  // ------------------------------------------------------------------ file names

  /** calc_filename */
  function FileName(base: string, index: nat, extension: string): string {
    if index != 0 then base + "." + Decimal(index) + "." + extension else base + "." + extension
  }

  lemma Between(before: string, x: string, y: string, after: string)
    requires before + x + after == before + y + after
    ensures x == y
  {
    var s := before + x + after;
    assert |x| == |y|;
    assert s[|before|..|before| + |x|] == x && s[|before|..|before| + |y|] == y;
  }

  lemma IndexedName(base: string, i: nat, extension: string)
    requires i > 0
    ensures FileName(base, i, extension) == (base + ".") + Decimal(i) + ("." + extension)
  {
  }

  /** Distinct indexes have distinct names. */
  lemma NamesDiffer(base: string, i: nat, j: nat, extension: string)
    requires FileName(base, i, extension) == FileName(base, j, extension)
    ensures i == j
  {
    if i > 0 && j > 0 {
      IndexedName(base, i, extension);
      IndexedName(base, j, extension);
      Between(base + ".", Decimal(i), Decimal(j), "." + extension);
      NumeralInjective(10, i, j, false);
    } else {
      assert |FileName(base, 0, extension)| == |base| + 1 + |extension|;
      assert i > 0 ==> |FileName(base, i, extension)| > |base| + 1 + |extension|;
      assert j > 0 ==> |FileName(base, j, extension)| > |base| + 1 + |extension|;
    }
  }

  /** Reading the index back: what stands between the base and the extension, and 0 if there is nothing. */
  function IndexIn(name: string, base: string, extension: string): nat {
    var from, to := |base| + 1, |name| - |extension| - 1;
    if from <= to <= |name| then Value(10, name[from..to]) else 0
  }

  /** Every name is base, index and extension with dots between them, the index left out if it is 0. */
  lemma NameReads(base: string, i: nat, extension: string)
    ensures var name := FileName(base, i, extension);
            && base + "." <= name && |name| > |extension| && name[|name| - |extension| - 1..] == "." + extension
            && IndexIn(name, base, extension) == i
            && (i == 0 ==> |name| == |base| + 1 + |extension|)
  {
    var name := FileName(base, i, extension);
    if i > 0 {
      IndexedName(base, i, extension);
      ReadBack(10, i, false);
      assert name[|base| + 1..|name| - |extension| - 1] == Decimal(i);
    } else {
      assert name == base + ("." + extension);
    }
  }

  datatype Config = Config(base: string, extension: string, maxSize: nat, maxFiles: nat)
  {
    function Name(i: nat): string {
      FileName(base, i, extension)
    }
  }

  ghost predicate Foreign(c: Config, name: string) {
    forall i :: 0 <= i <= c.maxFiles ==> name != c.Name(i)
  }

  // ------------------------------------------------------------------ what a rotation does

  /** File j holds what file i held, or neither is there. */
  predicate Moved(c: Config, before: FileSystem, i: nat, after: FileSystem, j: nat) {
    && (c.Name(j) in after <==> c.Name(i) in before)
    && (c.Name(i) in before ==> c.Name(j) in after && after[c.Name(j)] == before[c.Name(i)])
  }

  /** File j holds what the file below it held. */
  predicate MovedUp(c: Config, before: FileSystem, after: FileSystem, j: nat) {
    j > 0 && Moved(c, before, j - 1, after, j)
  }

  ghost predicate KeepsForeign(c: Config, before: FileSystem, after: FileSystem) {
    forall name :: Foreign(c, name) ==>
      (name in after <==> name in before) && (name in before ==> name in after && after[name] == before[name])
  }

  /** Every numbered file moves up by one, the last one is gone, and other files stay. */
  ghost predicate Rotated(c: Config, before: FileSystem, after: FileSystem) {
    && (forall j :: 1 <= j <= c.maxFiles ==> MovedUp(c, before, after, j))
    && KeepsForeign(c, before, after)
  }

  /** The state of the rename cascade when file i is the next target. */
  ghost predicate Cascade(c: Config, before: FileSystem, files: FileSystem, i: nat) {
    && (forall j :: i < j <= c.maxFiles ==> MovedUp(c, before, files, j))
    && (forall j :: 0 <= j < i ==> Moved(c, before, j, files, j))
    && KeepsForeign(c, before, files)
  }

  /** remove */
  function Removed(files: FileSystem, name: string): FileSystem {
    files - {name}
  }

  /** rename */
  function Renamed(files: FileSystem, src: string, target: string): FileSystem
    requires src in files
  {
    (files - {src})[target := files[src]]
  }

  /** One turn of the cascade. */
  function CascadeTurn(c: Config, files: FileSystem, i: nat): FileSystem
    requires 0 < i
  {
    var cleared := if c.Name(i) in files then Removed(files, c.Name(i)) else files;
    if c.Name(i - 1) in cleared then Renamed(cleared, c.Name(i - 1), c.Name(i)) else cleared
  }

  lemma TurnAt(c: Config, files: FileSystem, i: nat)
    requires 0 < i
    ensures Moved(c, files, i - 1, CascadeTurn(c, files, i), i)
    ensures forall name :: name != c.Name(i) && name != c.Name(i - 1) ==>
              (name in CascadeTurn(c, files, i) <==> name in files)
              && (name in files ==> CascadeTurn(c, files, i)[name] == files[name])
  {
    if c.Name(i) == c.Name(i - 1) { NamesDiffer(c.base, i, i - 1, c.extension); }
  }

  lemma TurnCascades(c: Config, before: FileSystem, files: FileSystem, i: nat)
    requires 0 < i <= c.maxFiles && Cascade(c, before, files, i)
    ensures Cascade(c, before, CascadeTurn(c, files, i), i - 1)
  {
    var after := CascadeTurn(c, files, i);
    TurnAt(c, files, i);
    assert Moved(c, before, i - 1, files, i - 1);
    forall j | i - 1 < j <= c.maxFiles ensures MovedUp(c, before, after, j) {
      if j != i {
        assert MovedUp(c, before, files, j);
        Elsewhere(c, files, after, i, j);
      }
    }
    forall j | 0 <= j < i - 1 ensures Moved(c, before, j, after, j) {
      Elsewhere(c, files, after, i, j);
      assert Moved(c, before, j, files, j);
    }
  }

  lemma Elsewhere(c: Config, files: FileSystem, after: FileSystem, i: nat, j: nat)
    requires 0 < i && j != i && j != i - 1
    requires forall name :: name != c.Name(i) && name != c.Name(i - 1) ==>
               (name in after <==> name in files) && (name in files ==> after[name] == files[name])
    ensures Moved(c, files, j, after, j)
  {
    if c.Name(j) == c.Name(i) { NamesDiffer(c.base, j, i, c.extension); }
    if c.Name(j) == c.Name(i - 1) { NamesDiffer(c.base, j, i - 1, c.extension); }
  }

  // ------------------------------------------------------------------ the sink

  class RotatingFileSink {
    const c: Config
    var files: FileSystem          // the file system
    var open: Option<string>       // the file that is open for writing
    var currentSize: nat

    /** The current file is open, and its size is known. */
    predicate Ready()
      reads this
    {
      open == Some(c.Name(0)) && c.Name(0) in files && currentSize == |files[c.Name(0)]|
    }

    /** The file is opened for appending, and created if it is not there. */
    constructor (c: Config, files: FileSystem)
      ensures Ready() && this.c == c
      ensures this.files == if c.Name(0) in files then files else files[c.Name(0) := ""]
    {
      this.c := c;
      this.files := if c.Name(0) in files then files else files[c.Name(0) := ""];
      open := Some(c.Name(0));
      new;
      currentSize := |this.files[c.Name(0)]|;
    }

    /** _rotate */
    method Rotate()
      requires open == Some(c.Name(0))
      modifies this`open, this`files
      ensures open == Some(c.Name(0)) && c.Name(0) in files && files[c.Name(0)] == ""
      ensures Rotated(c, old(files), files)
    {
      open := None;
      var i: nat := c.maxFiles;
      while i > 0
        invariant i <= c.maxFiles && Cascade(c, old(files), files, i)
      {
        TurnCascades(c, old(files), files, i);
        ghost var turned := CascadeTurn(c, files, i);
        var src, target := c.Name(i - 1), c.Name(i);
        if target in files { files := Removed(files, target); }
        if src in files { files := Renamed(files, src, target); }
        assert files == turned;
        i := i - 1;
      }
      Reopened(c, old(files), files);
      files := files[c.Name(0) := ""];
      open := Some(c.Name(0));
    }

    /** _sink_it */
    method SinkIt(msg: string)
      requires Ready()
      modifies this
      ensures Ready()
      ensures old(currentSize) + |msg| <= c.maxSize ==>
                files == old(files)[c.Name(0) := old(files[c.Name(0)]) + msg]
      ensures old(currentSize) + |msg| > c.maxSize ==>
                files[c.Name(0)] == msg && Rotated(c, old(files), files)
    {
      currentSize := currentSize + |msg|;
      if currentSize > c.maxSize {
        Rotate();
        currentSize := |msg|;
        Reopened2(c, old(files), files, msg);
      }
      files := files[c.Name(0) := files[c.Name(0)] + msg];
    }
  }

  lemma Reopened(c: Config, before: FileSystem, files: FileSystem)
    requires Cascade(c, before, files, 0)
    ensures Rotated(c, before, files[c.Name(0) := ""])
  {
    Reopened2(c, before, files, "");
  }

  /** The current file may hold anything after a rotation. */
  lemma Reopened2(c: Config, before: FileSystem, files: FileSystem, content: string)
    requires Rotated(c, before, files)
    ensures Rotated(c, before, files[c.Name(0) := content])
  {
    var after := files[c.Name(0) := content];
    forall j | 1 <= j <= c.maxFiles ensures MovedUp(c, before, after, j) {
      assert MovedUp(c, before, files, j);
      if c.Name(j) == c.Name(0) { NamesDiffer(c.base, j, 0, c.extension); }
    }
  }

  // ------------------------------------------------------------------ messages in files

  /** Messages as they stand in one file. */
  function Text(messages: seq<string>): string {
    if messages == [] then "" else Text(messages[..|messages| - 1]) + messages[|messages| - 1]
  }

  /** What logging a message does to the messages in the files, file 0 first. */
  function Log(c: Config, chunks: seq<seq<string>>, msg: string): (r: seq<seq<string>>)
    requires |chunks| > 0
    ensures |r| > 0
  {
    if |Text(chunks[0])| + |msg| <= c.maxSize then [chunks[0] + [msg]] + chunks[1..]
    else if |chunks| <= c.maxFiles then [[msg]] + chunks
    else ([[msg]] + chunks)[..c.maxFiles + 1]
  }

  /** The messages in the files after logging all of msgs, starting with no files. */
  function Logged(c: Config, msgs: seq<string>): (r: seq<seq<string>>)
    ensures |r| > 0
  {
    if msgs == [] then [[]] else Log(c, Logged(c, msgs[..|msgs| - 1]), msgs[|msgs| - 1])
  }

  /** The files hold these messages, and no further numbered file is there. */
  ghost predicate Holds(c: Config, files: FileSystem, chunks: seq<seq<string>>) {
    && 0 < |chunks| <= c.maxFiles + 1
    && (forall i :: 0 <= i < |chunks| ==> c.Name(i) in files && files[c.Name(i)] == Text(chunks[i]))
    && (forall i :: |chunks| <= i <= c.maxFiles ==> c.Name(i) !in files)
  }

  lemma AppendText(messages: seq<string>, msg: string)
    ensures Text(messages + [msg]) == Text(messages) + msg
  {
    assert (messages + [msg])[..|messages|] == messages;
  }

  /** Appending to file 0 without a rotation. */
  lemma HoldsAppended(c: Config, files: FileSystem, chunks: seq<seq<string>>, msg: string)
    requires Holds(c, files, chunks)
    ensures Holds(c, files[c.Name(0) := files[c.Name(0)] + msg], [chunks[0] + [msg]] + chunks[1..])
  {
    var after, more := files[c.Name(0) := files[c.Name(0)] + msg], [chunks[0] + [msg]] + chunks[1..];
    AppendText(chunks[0], msg);
    forall i | 0 < i ensures c.Name(i) != c.Name(0) {
      if c.Name(i) == c.Name(0) { NamesDiffer(c.base, i, 0, c.extension); }
    }
  }

  lemma HoldsRotated(c: Config, files: FileSystem, chunks: seq<seq<string>>, msg: string, after: FileSystem,
                     r: seq<seq<string>>)
    requires Holds(c, files, chunks) && Rotated(c, files, after)
    requires c.Name(0) in after && after[c.Name(0)] == msg
    requires |r| == (if |chunks| <= c.maxFiles then |chunks| + 1 else c.maxFiles + 1)
    requires r[0] == [msg] && forall i :: 1 <= i < |r| ==> r[i] == chunks[i - 1]
    ensures Holds(c, after, r)
  {
    assert [msg][..0] == [];
    forall i | 1 <= i <= c.maxFiles ensures MovedUp(c, files, after, i) { }
    forall i | 0 <= i < |r| ensures c.Name(i) in after && after[c.Name(i)] == Text(r[i]) {
      if i > 0 { assert MovedUp(c, files, after, i); }
    }
    forall i | |r| <= i <= c.maxFiles ensures c.Name(i) !in after {
      assert MovedUp(c, files, after, i);
    }
  }

  /** The sink's effect on the files is the effect of Log on their messages. */
  lemma HoldsLogged(c: Config, files: FileSystem, chunks: seq<seq<string>>, msg: string, after: FileSystem)
    requires Holds(c, files, chunks)
    requires |files[c.Name(0)]| + |msg| <= c.maxSize ==> after == files[c.Name(0) := files[c.Name(0)] + msg]
    requires |files[c.Name(0)]| + |msg| > c.maxSize ==>
               c.Name(0) in after && after[c.Name(0)] == msg && Rotated(c, files, after)
    ensures Holds(c, after, Log(c, chunks, msg))
  {
    if |files[c.Name(0)]| + |msg| <= c.maxSize {
      HoldsAppended(c, files, chunks, msg);
    } else {
      HoldsRotated(c, files, chunks, msg, after, Log(c, chunks, msg));
    }
  }

  /** A sink that starts with none of its files there, and logs any messages. */
  method LogAll(c: Config, files: FileSystem, msgs: seq<string>) returns (sink: RotatingFileSink)
    requires forall i :: 0 <= i <= c.maxFiles ==> c.Name(i) !in files
    ensures fresh(sink) && sink.c == c && sink.Ready()
    ensures Holds(c, sink.files, Logged(c, msgs))
  {
    sink := new RotatingFileSink(c, files);
    StartsEmpty(c, files);
    var i := 0;
    while i < |msgs|
      invariant i <= |msgs| && sink.c == c && sink.Ready() && fresh(sink)
      invariant Holds(c, sink.files, Logged(c, msgs[..i]))
    {
      ghost var before := sink.files;
      sink.SinkIt(msgs[i]);
      HoldsLogged(c, before, Logged(c, msgs[..i]), msgs[i], sink.files);
      assert msgs[..i + 1][..i] == msgs[..i];
      i := i + 1;
    }
    assert msgs[..|msgs|] == msgs;
  }

  lemma StartsEmpty(c: Config, files: FileSystem)
    requires forall i :: 0 <= i <= c.maxFiles ==> c.Name(i) !in files
    ensures Holds(c, files[c.Name(0) := ""], [[]])
  {
    forall i | 0 < i ensures c.Name(i) != c.Name(0) {
      if c.Name(i) == c.Name(0) { NamesDiffer(c.base, i, 0, c.extension); }
    }
  }

  // ------------------------------------------------------------------ what the files keep

  /** All messages in the files, the oldest first. */
  function Kept(chunks: seq<seq<string>>): seq<string> {
    if chunks == [] then [] else Kept(chunks[1..]) + chunks[0]
  }

  predicate Suffix(s: seq<string>, t: seq<string>) {
    |s| <= |t| && t[|t| - |s|..] == s
  }

  /** Dropping the oldest files keeps a suffix. */
  lemma {:induction false} KeptPrefix(chunks: seq<seq<string>>, n: nat)
    requires n <= |chunks|
    ensures Suffix(Kept(chunks[..n]), Kept(chunks))
    decreases n
  {
    if n > 0 {
      KeptPrefix(chunks[1..], n - 1);
      assert chunks[..n][1..] == chunks[1..][..n - 1];
    } else {
      assert chunks[..0] == [];
    }
  }

  lemma KeptLog(c: Config, chunks: seq<seq<string>>, msg: string)
    requires |chunks| > 0
    ensures Suffix(Kept(Log(c, chunks, msg)), Kept(chunks) + [msg])
    ensures |Log(c, chunks, msg)| <= c.maxFiles ==>
              |chunks| <= c.maxFiles && Kept(Log(c, chunks, msg)) == Kept(chunks) + [msg]
  {
    if |Text(chunks[0])| + |msg| <= c.maxSize {
      assert ([chunks[0] + [msg]] + chunks[1..])[1..] == chunks[1..];
      assert Kept(chunks[1..]) + (chunks[0] + [msg]) == (Kept(chunks[1..]) + chunks[0]) + [msg];
    } else {
      assert ([[msg]] + chunks)[1..] == chunks;
      if |chunks| > c.maxFiles { KeptPrefix([[msg]] + chunks, c.maxFiles + 1); }
    }
  }

  lemma SuffixAppend(s: seq<string>, t: seq<string>, u: seq<string>, msg: string)
    requires Suffix(s, t + [msg]) && Suffix(t, u)
    ensures Suffix(s, u + [msg])
  {
    assert (u + [msg])[|u| - |t|..] == t + [msg];
  }

  lemma SuffixLog(c: Config, chunks: seq<seq<string>>, rest: seq<string>, msg: string, msgs: seq<string>)
    requires |chunks| > 0 && Suffix(Kept(chunks), rest) && msgs == rest + [msg]
    ensures Suffix(Kept(Log(c, chunks, msg)), msgs)
  {
    KeptLog(c, chunks, msg);
    SuffixAppend(Kept(Log(c, chunks, msg)), Kept(chunks), rest, msg);
  }

  /** The files hold a contiguous suffix of whole messages. */
  lemma {:induction false} KeepsSuffix(c: Config, msgs: seq<string>)
    ensures Suffix(Kept(Logged(c, msgs)), msgs)
  {
    if msgs == [] {
      assert Kept([[]]) == [];
    } else {
      var rest, msg := msgs[..|msgs| - 1], msgs[|msgs| - 1];
      KeepsSuffix(c, rest);
      assert rest + [msg] == msgs;
      SuffixLog(c, Logged(c, rest), rest, msg, msgs);
    }
  }

  /** Until the last file is in use, they hold every message. */
  lemma {:induction false} KeepsAll(c: Config, msgs: seq<string>)
    requires |Logged(c, msgs)| <= c.maxFiles
    ensures Kept(Logged(c, msgs)) == msgs
  {
    if msgs == [] {
      assert Kept([[]]) == [];
    } else {
      var rest, msg := msgs[..|msgs| - 1], msgs[|msgs| - 1];
      KeptLog(c, Logged(c, rest), msg);
      KeepsAll(c, rest);
      assert rest + [msg] == msgs;
    }
  }

  predicate SizeKept(c: Config, chunk: seq<string>) {
    |Text(chunk)| <= c.maxSize || |chunk| == 1
  }

  /** No file is larger than allowed, unless it holds a single message; and there are not too many files. */
  lemma {:induction false} KeepsSizes(c: Config, msgs: seq<string>)
    ensures |Logged(c, msgs)| <= c.maxFiles + 1
    ensures forall i :: 0 <= i < |Logged(c, msgs)| ==> SizeKept(c, Logged(c, msgs)[i])
  {
    if msgs == [] {
    } else {
      var rest, msg := msgs[..|msgs| - 1], msgs[|msgs| - 1];
      KeepsSizes(c, rest);
      AppendText(Logged(c, rest)[0], msg);
    }
  }

  /** The first message of a file did not fit into the file before it. */
  ghost predicate Spilled(c: Config, newer: seq<string>, older: seq<string>) {
    newer != [] && |Text(older)| + |newer[0]| > c.maxSize
  }

  ghost predicate AllSpilled(c: Config, chunks: seq<seq<string>>) {
    forall i :: 0 <= i < |chunks| - 1 ==> Spilled(c, chunks[i], chunks[i + 1])
  }

  lemma SpilledLog(c: Config, chunks: seq<seq<string>>, msg: string)
    requires |chunks| > 0 && AllSpilled(c, chunks) && (chunks[0] == [] ==> |chunks| == 1)
    ensures AllSpilled(c, Log(c, chunks, msg)) && Log(c, chunks, msg)[0] != []
  {
    var after := Log(c, chunks, msg);
    forall i | 0 <= i < |after| - 1 ensures Spilled(c, after[i], after[i + 1]) {
      if |Text(chunks[0])| + |msg| <= c.maxSize {
        assert i > 0 ==> after[i] == chunks[i];
        assert after[i + 1] == chunks[i + 1] && Spilled(c, chunks[i], chunks[i + 1]);
      } else if i > 0 {
        assert after[i] == chunks[i - 1] && after[i + 1] == chunks[i - 1 + 1];
        assert Spilled(c, chunks[i - 1], chunks[i - 1 + 1]);
      }
    }
  }

  /** Files are as full as can be: a new one is begun only for a message that did not fit. */
  lemma {:induction false} KeepsFull(c: Config, msgs: seq<string>)
    ensures AllSpilled(c, Logged(c, msgs)) && (msgs != [] ==> Logged(c, msgs)[0] != [])
  {
    if msgs == [] {
    } else {
      var rest, msg := msgs[..|msgs| - 1], msgs[|msgs| - 1];
      KeepsFull(c, rest);
      SpilledLog(c, Logged(c, rest), msg);
    }
  }

  /** Texts read from the oldest to the newest file are the text of the messages kept. */
  function ReadAll(c: Config, files: FileSystem, n: nat): string
    requires forall i :: 0 <= i < n ==> c.Name(i) in files
  {
    ReadFrom(c, files, 0, n)
  }

  /** Files n-1 down to i. */
  function ReadFrom(c: Config, files: FileSystem, i: nat, n: nat): string
    requires i <= n && forall i :: 0 <= i < n ==> c.Name(i) in files
    decreases n - i
  {
    if i == n then "" else ReadFrom(c, files, i + 1, n) + files[c.Name(i)]
  }

  lemma {:induction false} TextConcat(a: seq<string>, b: seq<string>)
    ensures Text(a + b) == Text(a) + Text(b)
    decreases |b|
  {
    if b == [] {
      assert a + b == a;
    } else {
      var ab := a + b;
      assert ab[..|ab| - 1] == a + b[..|b| - 1];
      TextConcat(a, b[..|b| - 1]);
    }
  }

  lemma {:induction false} ReadFromText(c: Config, files: FileSystem, chunks: seq<seq<string>>, i: nat)
    requires Holds(c, files, chunks) && i <= |chunks|
    ensures ReadFrom(c, files, i, |chunks|) == Text(Kept(chunks[i..]))
    decreases |chunks| - i
  {
    if i >= |chunks| {
    } else {
      ReadFromText(c, files, chunks, i + 1);
      assert chunks[i..][1..] == chunks[i + 1..];
      TextConcat(Kept(chunks[i + 1..]), chunks[i]);
    }
  }

  /** After any run, the text on disk is that of the last so many messages. */
  lemma DiskIsSuffix(c: Config, files: FileSystem, msgs: seq<string>)
    requires Holds(c, files, Logged(c, msgs))
    ensures exists k :: 0 <= k <= |msgs| && ReadAll(c, files, |Logged(c, msgs)|) == Text(msgs[k..])
  {
    var chunks := Logged(c, msgs);
    ReadFromText(c, files, chunks, 0);
    assert chunks[0..] == chunks;
    KeepsSuffix(c, msgs);
    var k := |msgs| - |Kept(chunks)|;
    assert msgs[k..] == Kept(chunks);
  }
}
