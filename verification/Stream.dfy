/** Splitting a command's output into lines and sudo prompts, and the writer two
    pipes share (`handlePipe`, `autoAnswerWriter`, `isSudoPrompt`). Bytes are
    characters here. */
module Stream {
  import opened GoStrings

  const PROMPT := "[sudo] password for "

  predicate IsPrompt(p: string) {
    HasPrefix(p, PROMPT) && HasSuffix(p, ": ")
  }

  /** A line is handed on when its last byte ends it. */
  predicate Ends(line: string) {
    line != "" && (line[|line| - 1] == '\n' || IsPrompt(line))
  }

  /** The splitting and merging below work for any test of a line; the methods
      use `Ends` and `IsPrompt`. */
  type Test = string -> bool

  /** The chunks handed on and the pending line after reading a stream. */
  datatype Split = Split(chunks: seq<string>, line: string)

  function Feed(ends: Test, s: Split, b: char): Split {
    var line := s.line + [b];
    if ends(line) then Split(s.chunks + [line], "") else Split(s.chunks, line)
  }

  function Chunks(ends: Test, stream: string): Split {
    if stream == "" then Split([], "") else Feed(ends, Chunks(ends, stream[..|stream| - 1]), stream[|stream| - 1])
  }

  function Flat(chunks: seq<string>): string {
    if chunks == [] then "" else Flat(chunks[..|chunks| - 1]) + chunks[|chunks| - 1]
  }

  /** A chunk ends at its last byte and at no earlier one. */
  ghost predicate Whole(ends: Test, chunk: string) {
    chunk != "" && ends(chunk) && forall n :: 0 < n < |chunk| ==> !ends(chunk[..n])
  }

  ghost predicate Open(ends: Test, line: string) {
    forall n :: 0 < n <= |line| ==> !ends(line[..n])
  }

  /** The loop of `handlePipe` up to end of file; the pending line is dropped. */
  method HandlePipe(stream: string) returns (chunks: seq<string>, line: string)
    ensures Split(chunks, line) == Chunks(Ends, stream)
  {
    chunks, line := [], "";
    for i := 0 to |stream|
      invariant Split(chunks, line) == Chunks(Ends, stream[..i])
    {
      assert stream[..i + 1][..i] == stream[..i];
      line := line + [stream[i]];
      if stream[i] == '\n' || IsPrompt(line) {
        chunks := chunks + [line];
        line := "";
      }
    }
    assert stream[..|stream|] == stream;
  }

  // ------------------------------------------------------------ what a split is

  /** A newline and a prompt never end the same chunk. */
  lemma NewlineOrPrompt(chunk: string)
    requires Ends(chunk)
    ensures (chunk[|chunk| - 1] == '\n') != IsPrompt(chunk)
  {
    if IsPrompt(chunk) {
      assert chunk[|chunk| - 2..][1] == ' ';
    }
  }

  lemma FeedWhole(ends: Test, s: Split, b: char)
    requires Open(ends, s.line) && forall i :: 0 <= i < |s.chunks| ==> Whole(ends, s.chunks[i])
    ensures var t := Feed(ends, s, b);
      Open(ends, t.line) && forall i :: 0 <= i < |t.chunks| ==> Whole(ends, t.chunks[i])
  {
    var line := s.line + [b];
    forall n | 0 < n < |line|
      ensures !ends(line[..n])
    {
      assert line[..n] == s.line[..n];
    }
    assert line[..|line|] == line;
  }

  /** A split of `read`: nothing is lost or added, every chunk ends at its end
      only, and the pending line has not ended. */
  ghost predicate Cuts(ends: Test, s: Split, read: string) {
    && Flat(s.chunks) + s.line == read && Open(ends, s.line)
    && forall i :: 0 <= i < |s.chunks| ==> Whole(ends, s.chunks[i])
  }

  lemma FeedCuts(ends: Test, s: Split, b: char, read: string)
    requires Cuts(ends, s, read)
    ensures Cuts(ends, Feed(ends, s, b), read + [b])
  {
    FeedWhole(ends, s, b);
    FlatFeed(ends, s, b);
  }

  /** The chunks, then the pending line, are the bytes read, cut as they should be. */
  lemma {:induction false} ChunksExact(ends: Test, stream: string)
    ensures Cuts(ends, Chunks(ends, stream), stream)
  {
    if stream == "" {
      assert Chunks(ends, stream) == Split([], "");
    } else {
      var init, b := stream[..|stream| - 1], stream[|stream| - 1];
      ChunksExact(ends, init);
      FeedCuts(ends, Chunks(ends, init), b, init);
      assert init + [b] == stream;
    }
  }

  lemma FlatFeed(ends: Test, s: Split, b: char)
    ensures var t := Feed(ends, s, b); Flat(t.chunks) + t.line == Flat(s.chunks) + s.line + [b]
  {
    var line := s.line + [b];
    assert (s.chunks + [line])[..|s.chunks|] == s.chunks;
    assert Flat(s.chunks) + s.line + [b] == Flat(s.chunks) + line;
    assert Flat(s.chunks + [line]) + "" == Flat(s.chunks + [line]);
  }

  lemma {:induction false} FlatCons(chunks: seq<string>)
    requires chunks != []
    ensures Flat(chunks) == chunks[0] + Flat(chunks[1..])
    decreases |chunks|
  {
    if |chunks| == 1 {
      assert chunks[..0] == [] && chunks[1..] == [];
    } else {
      var init, last := chunks[..|chunks| - 1], chunks[|chunks| - 1];
      FlatCons(init);
      assert init[1..] == chunks[1..][..|chunks| - 2];
      assert chunks[0] + (Flat(init[1..]) + last) == chunks[0] + Flat(init[1..]) + last;
    }
  }

  /** The first chunk of a split is the shortest beginning that ends. */
  lemma FirstChunk(ends: Test, a: string, restA: string, b: string, restB: string)
    requires Whole(ends, a) && Whole(ends, b) && a + restA == b + restB
    ensures a == b && restA == restB
  {
    var s := a + restA;
    assert s[..|a|] == a && s[..|b|] == b;
    assert |b| <= |a| ==> a[..|b|] == b;
    assert |a| <= |b| ==> b[..|a|] == a;
    assert s[|a|..] == restA && s[|b|..] == restB;
  }

  /** There is only one way to cut a stream like that. */
  lemma {:induction false} SplitUnique(ends: Test, a: seq<string>, lineA: string, b: seq<string>, lineB: string)
    requires Flat(a) + lineA == Flat(b) + lineB && Open(ends, lineA) && Open(ends, lineB)
    requires forall i :: 0 <= i < |a| ==> Whole(ends, a[i])
    requires forall i :: 0 <= i < |b| ==> Whole(ends, b[i])
    ensures a == b && lineA == lineB
    decreases |a|
  {
    if a == [] && b == [] {
      assert Flat(a) + lineA == lineA && Flat(b) + lineB == lineB;
    } else if a == [] {
      FlatCons(b);
      assert b[0] + Flat(b[1..]) + lineB == b[0] + (Flat(b[1..]) + lineB);
      assert Flat(a) + lineA == lineA;
      NotBoth(ends, b[0], Flat(b[1..]) + lineB, lineA);
    } else if b == [] {
      FlatCons(a);
      assert a[0] + Flat(a[1..]) + lineA == a[0] + (Flat(a[1..]) + lineA);
      assert Flat(b) + lineB == lineB;
      NotBoth(ends, a[0], Flat(a[1..]) + lineA, lineB);
    } else {
      FlatCons(a);
      FlatCons(b);
      assert a[0] + Flat(a[1..]) + lineA == a[0] + (Flat(a[1..]) + lineA);
      assert b[0] + Flat(b[1..]) + lineB == b[0] + (Flat(b[1..]) + lineB);
      FirstChunk(ends, a[0], Flat(a[1..]) + lineA, b[0], Flat(b[1..]) + lineB);
      SplitUnique(ends, a[1..], lineA, b[1..], lineB);
      assert a == [a[0]] + a[1..] && b == [b[0]] + b[1..];
    }
  }

  /** So what the loop computes is the only cut of its input. */
  lemma ChunksOnly(ends: Test, s: Split, stream: string)
    requires Cuts(ends, s, stream)
    ensures s == Chunks(ends, stream)
  {
    ChunksExact(ends, stream);
    var t := Chunks(ends, stream);
    SplitUnique(ends, s.chunks, s.line, t.chunks, t.line);
  }

  lemma NotBoth(ends: Test, a: string, rest: string, line: string)
    requires Whole(ends, a) && a + rest == line
    ensures !Open(ends, line)
  {
    assert line[..|a|] == a;
  }

  // ------------------------------------------------------------ the shared writer

  /** `autoAnswerWriter`, set up as `CmdAsyncWithContext` does: a prompt is
      answered and kept out of the buffer, anything else is buffered. */
  class Writer {
    const answer: string
    var buffer: string
    var sent: string

    constructor (password: string)
      ensures answer == password + "\n" && buffer == "" && sent == ""
    {
      answer, buffer, sent := password + "\n", "", "";
    }

    method Write(p: string)
      modifies this
      ensures sent == old(sent) + if IsPrompt(p) then answer else ""
      ensures buffer == old(buffer) + if IsPrompt(p) then "" else p
    {
      assert sent + "" == sent && buffer + "" == buffer;
      if IsPrompt(p) {
        sent := sent + answer;
        return;
      }
      buffer := buffer + p;
    }
  }

  /** One pipe: what is left to read, the pending line, and a chunk cut off but
      not yet written. */
  datatype Pipe = Pipe(read: string, left: string, line: string, ready: Option<string>)

  /** What the writer has received: buffered chunks with the pipe they came from,
      and the number of answers sent. */
  datatype Machine = Machine(pipes: seq<Pipe>, log: seq<(nat, string)>, answers: nat)

  /** What ends a line, and which lines are prompts. */
  datatype Rules = Rules(ends: Test, prompt: Test)

  /** One step of the goroutine of pipe `k`: write a chunk that is ready, else
      read one byte. */
  function Step(r: Rules, m: Machine, k: nat): (m2: Machine)
    ensures |m2.pipes| == |m.pipes|
  {
    if k >= |m.pipes| then m
    else
      var p := m.pipes[k];
      match p.ready
      case Some(chunk) =>
        if r.prompt(chunk) then Machine(m.pipes[k := p.(ready := None)], m.log, m.answers + 1)
        else Machine(m.pipes[k := p.(ready := None)], m.log + [(k, chunk)], m.answers)
      case None =>
        if p.left == "" then m
        else
          var line := p.line + [p.left[0]];
          var q := if r.ends(line) then Pipe(p.read + [p.left[0]], p.left[1..], "", Some(line))
                   else Pipe(p.read + [p.left[0]], p.left[1..], line, None);
          m.(pipes := m.pipes[k := q])
  }

  function Run(r: Rules, streams: seq<string>, schedule: seq<nat>): (m: Machine)
    ensures |m.pipes| == |streams|
  {
    if schedule == [] then
      Machine(seq(|streams|, i requires 0 <= i < |streams| => Pipe("", streams[i], "", None)), [], 0)
    else Step(r, Run(r, streams, schedule[..|schedule| - 1]), schedule[|schedule| - 1])
  }

  function Plain(r: Rules, chunks: seq<string>): seq<string> {
    if chunks == [] then []
    else Plain(r, chunks[..|chunks| - 1]) + if r.prompt(chunks[|chunks| - 1]) then [] else [chunks[|chunks| - 1]]
  }

  function Prompts(r: Rules, chunks: seq<string>): nat {
    if chunks == [] then 0
    else Prompts(r, chunks[..|chunks| - 1]) + if r.prompt(chunks[|chunks| - 1]) then 1 else 0
  }

  /** The buffered chunks of one pipe, in the order they were written. */
  function From(log: seq<(nat, string)>, k: nat): seq<string> {
    if log == [] then []
    else From(log[..|log| - 1], k) + if log[|log| - 1].0 == k then [log[|log| - 1].1] else []
  }

  /** The chunks of a pipe that have been written. */
  function Written(r: Rules, p: Pipe): seq<string> {
    var chunks := Chunks(r.ends, p.read).chunks;
    if p.ready.Some? && chunks != [] then chunks[..|chunks| - 1] else chunks
  }

  ghost predicate PipeInv(r: Rules, stream: string, p: Pipe, got: seq<string>) {
    && p.read + p.left == stream
    && Chunks(r.ends, p.read).line == p.line
    && (p.ready.Some? ==>
          && p.line == "" && Chunks(r.ends, p.read).chunks != []
          && Chunks(r.ends, p.read).chunks[|Chunks(r.ends, p.read).chunks| - 1] == p.ready.value)
    && got == Plain(r, Written(r, p))
  }

  function Total<T>(f: T -> nat, s: seq<T>): nat {
    if s == [] then 0 else Total(f, s[..|s| - 1]) + f(s[|s| - 1])
  }

  lemma {:induction false} TotalUpdate<T>(f: T -> nat, s: seq<T>, k: nat, x: T)
    requires k < |s|
    ensures Total(f, s[k := x]) - f(x) == Total(f, s) - f(s[k])
    decreases |s|
  {
    var n := |s| - 1;
    if k == n {
      assert s[k := x][..n] == s[..n];
    } else {
      assert s[k := x][..n] == s[..n][k := x];
      TotalUpdate(f, s[..n], k, x);
    }
  }

  lemma {:induction false} TotalSame<T, U>(f: T -> nat, s: seq<T>, g: U -> nat, t: seq<U>)
    requires |s| == |t| && forall i :: 0 <= i < |s| ==> f(s[i]) == g(t[i])
    ensures Total(f, s) == Total(g, t)
  {
    if s != [] {
      TotalSame(f, s[..|s| - 1], g, t[..|t| - 1]);
    }
  }

  /** The prompts a pipe has had answered. */
  function Answered(r: Rules): Pipe -> nat {
    (p: Pipe) => Prompts(r, Written(r, p))
  }

  /** The prompts in a whole stream. */
  function PromptsOf(r: Rules): string -> nat {
    (stream: string) => Prompts(r, Chunks(r.ends, stream).chunks)
  }

  lemma FromSnoc(log: seq<(nat, string)>, e: (nat, string), k: nat)
    ensures From(log + [e], k) == From(log, k) + if e.0 == k then [e.1] else []
  {
    assert (log + [e])[..|log|] == log;
  }

  /** Reading one byte moves the split by one byte. */
  lemma ReadOne(r: Rules, stream: string, p: Pipe, got: seq<string>)
    requires PipeInv(r, stream, p, got) && p.ready.None? && p.left != ""
    ensures var line := p.line + [p.left[0]];
      var q := if r.ends(line) then Pipe(p.read + [p.left[0]], p.left[1..], "", Some(line))
               else Pipe(p.read + [p.left[0]], p.left[1..], line, None);
      PipeInv(r, stream, q, got) && Written(r, q) == Written(r, p)
  {
    var read := p.read + [p.left[0]];
    assert read[..|p.read|] == p.read;
    assert read + p.left[1..] == p.read + p.left;
    assert Chunks(r.ends, read) == Feed(r.ends, Chunks(r.ends, p.read), p.left[0]);
    var line := p.line + [p.left[0]];
    if r.ends(line) {
      var chunks := Chunks(r.ends, read).chunks;
      assert chunks[..|chunks| - 1] == Chunks(r.ends, p.read).chunks;
    }
  }

  /** Writing a chunk adds it to what has been written. */
  lemma WriteOne(r: Rules, stream: string, p: Pipe, got: seq<string>)
    requires PipeInv(r, stream, p, got) && p.ready.Some?
    ensures var q, chunk := p.(ready := None), p.ready.value;
      && PipeInv(r, stream, q, got + if r.prompt(chunk) then [] else [chunk])
      && Prompts(r, Written(r, q)) == Prompts(r, Written(r, p)) + if r.prompt(chunk) then 1 else 0
  {
    var chunks := Chunks(r.ends, p.read).chunks;
    assert chunks == chunks[..|chunks| - 1] + [p.ready.value];
    assert got + [] == got;
  }

  /** A step of pipe `j` as pipe `k` sees it: not at all, unless it is its own. */
  lemma LogStep(r: Rules, m: Machine, j: nat, k: nat)
    requires j < |m.pipes|
    ensures From(Step(r, m, j).log, k)
         == From(m.log, k) + (if j == k && m.pipes[j].ready.Some? && !r.prompt(m.pipes[j].ready.value)
                              then [m.pipes[j].ready.value] else [])
  {
    if m.pipes[j].ready.Some? && !r.prompt(m.pipes[j].ready.value) {
      FromSnoc(m.log, (j, m.pipes[j].ready.value), k);
      assert From(m.log, k) + [] == From(m.log, k);
    } else {
      assert From(m.log, k) + [] == From(m.log, k);
    }
  }

  lemma PipeStep(r: Rules, stream: string, m: Machine, j: nat, k: nat)
    requires k < |m.pipes| && PipeInv(r, stream, m.pipes[k], From(m.log, k))
    ensures PipeInv(r, stream, Step(r, m, j).pipes[k], From(Step(r, m, j).log, k))
    ensures j < |m.pipes| && j == k ==>
      Answered(r)(Step(r, m, j).pipes[k]) - Answered(r)(m.pipes[k]) == Step(r, m, j).answers - m.answers
  {
    if j < |m.pipes| {
      LogStep(r, m, j, k);
      assert From(m.log, k) + [] == From(m.log, k);
      if j == k {
        var p := m.pipes[k];
        if p.ready.Some? {
          WriteOne(r, stream, p, From(m.log, k));
        } else if p.left != "" {
          ReadOne(r, stream, p, From(m.log, k));
        }
      }
    }
  }

  /** One pipe, under every interleaving: what is read and what is left make up
      its stream, and the buffer has its written chunks without the prompts. */
  lemma {:induction false} PipeHolds(r: Rules, streams: seq<string>, schedule: seq<nat>, k: nat)
    requires k < |streams|
    ensures var m := Run(r, streams, schedule); PipeInv(r, streams[k], m.pipes[k], From(m.log, k))
    decreases |schedule|
  {
    if schedule == [] {
      assert Chunks(r.ends, "") == Split([], "");
    } else {
      var before, j := schedule[..|schedule| - 1], schedule[|schedule| - 1];
      PipeHolds(r, streams, before, k);
      PipeStep(r, streams[k], Run(r, streams, before), j, k);
    }
  }

  lemma {:induction false} NothingAnswered(r: Rules, pipes: seq<Pipe>)
    requires forall i :: 0 <= i < |pipes| ==> pipes[i].read == "" && pipes[i].ready.None?
    ensures Total(Answered(r), pipes) == 0
  {
    if pipes != [] {
      NothingAnswered(r, pipes[..|pipes| - 1]);
    }
  }

  lemma AnswerStep(r: Rules, stream: string, m: Machine, j: nat)
    requires j < |m.pipes| && PipeInv(r, stream, m.pipes[j], From(m.log, j))
    requires m.answers == Total(Answered(r), m.pipes)
    ensures Step(r, m, j).answers == Total(Answered(r), Step(r, m, j).pipes)
  {
    PipeStep(r, stream, m, j, j);
    OnePipeMoves(r, m, j);
    TotalUpdate(Answered(r), m.pipes, j, Step(r, m, j).pipes[j]);
  }

  /** Every prompt written so far has been answered once. */
  lemma {:induction false} AnswersHold(r: Rules, streams: seq<string>, schedule: seq<nat>)
    ensures var m := Run(r, streams, schedule); m.answers == Total(Answered(r), m.pipes)
    decreases |schedule|
  {
    if schedule == [] {
      NothingAnswered(r, Run(r, streams, []).pipes);
    } else {
      var before, j := schedule[..|schedule| - 1], schedule[|schedule| - 1];
      AnswersHold(r, streams, before);
      if j < |streams| {
        PipeHolds(r, streams, before, j);
        AnswerStep(r, streams[j], Run(r, streams, before), j);
      }
    }
  }

  lemma {:induction false} LogBounded(r: Rules, streams: seq<string>, schedule: seq<nat>)
    ensures forall i :: 0 <= i < |Run(r, streams, schedule).log| ==> Run(r, streams, schedule).log[i].0 < |streams|
    decreases |schedule|
  {
    if schedule != [] {
      LogBounded(r, streams, schedule[..|schedule| - 1]);
    }
  }

  lemma OnePipeMoves(r: Rules, m: Machine, j: nat)
    requires j < |m.pipes|
    ensures Step(r, m, j).pipes == m.pipes[j := Step(r, m, j).pipes[j]]
  {
  }

  ghost predicate AllRead(m: Machine) {
    forall k :: 0 <= k < |m.pipes| ==> m.pipes[k].left == "" && m.pipes[k].ready.None?
  }

  /** When all pipes are read to the end, under any interleaving, the buffer is a
      merge of the pipes' chunks without the prompts, each pipe's in order, and
      as many answers were sent as there were prompts. */
  lemma MergedAtEnd(r: Rules, streams: seq<string>, schedule: seq<nat>)
    requires AllRead(Run(r, streams, schedule))
    ensures var m := Run(r, streams, schedule);
      && (forall k :: 0 <= k < |streams| ==> From(m.log, k) == Plain(r, Chunks(r.ends, streams[k]).chunks))
      && (forall i :: 0 <= i < |m.log| ==> m.log[i].0 < |streams|)
      && m.answers == Total(PromptsOf(r), streams)
  {
    var m := Run(r, streams, schedule);
    forall k | 0 <= k < |streams|
      ensures m.pipes[k].read == streams[k] && From(m.log, k) == Plain(r, Chunks(r.ends, streams[k]).chunks)
    {
      PipeHolds(r, streams, schedule, k);
      assert m.pipes[k].read + "" == m.pipes[k].read;
    }
    AnswersHold(r, streams, schedule);
    LogBounded(r, streams, schedule);
    TotalSame(Answered(r), m.pipes, PromptsOf(r), streams);
  }

  /** A prompt is the fixed words, a name, and a colon and blank: any other line is
      none, whatever its end. */
  lemma PromptExact(line: string)
    ensures IsPrompt(line) <==> exists user: string :: line == "[sudo] password for " + user + ": "
  {
    var words, end := "[sudo] password for ", ": ";
    assert |words| == 20 && words[18] == 'r' && words[19] == ' ';
    if IsPrompt(line) {
      assert line[..20] == words && line[|line| - 2..] == end;
      assert line[|line| - 2] == ':';
      assert line[18] == 'r' && line[19] == ' ';
      var user := line[20..|line| - 2];
      assert line == words + user + end;
    }
    forall user: string | line == words + user + end
      ensures IsPrompt(line)
    {
      assert line[..20] == words && line[|line| - 2..] == end;
    }
  }
}
