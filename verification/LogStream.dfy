/**
 * The run log from its writers to a reader of its stream, as an interleaving of
 * atomic steps: a critical section of the log, a call of its sink, the end of
 * the run, a read by the stream's handler.
 */
module LogStream {
  import opened RunLogText
  import opened Strings

  const LOG_FLUSH_BYTES := 16384

  /** The log's own fields; its buffer holds `Text(lines)`. */
  datatype Buffer = Buffer(lines: seq<string>, armed: bool, closed: bool)

  /** The first section of a write: the new buffer and what its sink is then given. */
  function AfterWrite(b: Buffer, line: string): (Buffer, seq<string>) {
    if b.closed then (b, [])
    else if |Text(b.lines + [line])| >= LOG_FLUSH_BYTES then (b.(lines := [], armed := false), b.lines + [line])
    else (b.(lines := b.lines + [line], armed := true), [])
  }

  function AfterFlush(b: Buffer): (Buffer, seq<string>) {
    (b.(lines := [], armed := false), b.lines)
  }

  class RunLog {
    var buf: string
    var armed: bool
    var closed: bool
    ghost var lines: seq<string>

    ghost predicate Valid()
      reads this
    {
      buf == Text(lines)
    }

    ghost function Now(): Buffer
      reads this
    {
      Buffer(lines, armed, closed)
    }

    constructor ()
      ensures Valid() && Now() == Buffer([], false, false)
    {
      buf, armed, closed, lines := "", false, false, [];
    }

    method Write(text: string, ghost line: string) returns (pending: string)
      requires Valid() && text == line + "\n"
      modifies this
      ensures Valid() && (Now(), pending) == (AfterWrite(old(Now()), line).0, Text(AfterWrite(old(Now()), line).1))
    {
      pending := "";
      if closed {
        return;
      }
      TextAppend(lines, [line]);
      assert Text([line]) == text;
      buf, lines := buf + text, lines + [line];
      var flushNow := |buf| >= LOG_FLUSH_BYTES;
      if !flushNow && !armed {
        armed := true;
      }
      if flushNow {
        pending := buf;
        buf, lines := "", [];
        if armed {
          armed := false;
        }
      }
    }

    method Flush() returns (pending: string)
      requires Valid()
      modifies this
      ensures Valid() && (Now(), pending) == (AfterFlush(old(Now())).0, Text(AfterFlush(old(Now())).1))
    {
      if armed {
        armed := false;
      }
      pending := buf;
      buf, lines := "", [];
    }

    method Close()
      requires Valid()
      modifies this
      ensures Valid() && Now() == old(Now()).(closed := true)
    {
      closed := true;
    }
  }

  // ---------------------------------------------------------------------------
  // The stored chunks
  // ---------------------------------------------------------------------------

  datatype Chunk = Chunk(seqNo: nat, text: string)

  function Flat(chunks: seq<seq<string>>): seq<string> {
    if chunks == [] then [] else Flat(chunks[..|chunks| - 1]) + chunks[|chunks| - 1]
  }

  function LastNo(chunks: seq<Chunk>): nat {
    if chunks == [] then 0
    else
      var rest := LastNo(chunks[..|chunks| - 1]);
      if chunks[|chunks| - 1].seqNo > rest then chunks[|chunks| - 1].seqNo else rest
  }

  /** One transaction: the largest number of the run's chunks, then a row with the next. */
  function Appended(chunks: seq<Chunk>, text: string): seq<Chunk> {
    chunks + [Chunk(LastNo(chunks) + 1, text)]
  }

  function ChunksAfter(chunks: seq<Chunk>, after: nat): seq<Chunk> {
    if chunks == [] then []
    else
      var rest := ChunksAfter(chunks[..|chunks| - 1], after);
      if chunks[|chunks| - 1].seqNo > after then rest + [chunks[|chunks| - 1]] else rest
  }

  /** The lines a reader gets from chunks, in their order. */
  function Lines(chunks: seq<Chunk>): seq<string> {
    if chunks == [] then [] else Lines(chunks[..|chunks| - 1]) + Shown(chunks[|chunks| - 1].text)
  }

  /** The handler's inner loop: an event for each line that is not empty. */
  method SendNonEmpty(before: seq<string>, lines: seq<string>) returns (sent: seq<string>)
    ensures sent == before + NonEmpty(lines)
  {
    sent := before;
    for k := 0 to |lines|
      invariant sent == before + NonEmpty(lines[..k])
    {
      NonEmptyAppend(lines[..k], [lines[k]]);
      assert lines[..k + 1] == lines[..k] + [lines[k]];
      if lines[k] != "" {
        sent := sent + [lines[k]];
      }
    }
    assert lines[..|lines|] == lines;
  }

  /** One pass of the stream's handler over the chunks past its cursor. */
  method Emit(chunks: seq<Chunk>, cursor: nat) returns (next: nat, sent: seq<string>)
    ensures next == if chunks == [] then cursor else chunks[|chunks| - 1].seqNo
    ensures sent == Lines(chunks)
  {
    next, sent := cursor, [];
    for i := 0 to |chunks|
      invariant next == if i == 0 then cursor else chunks[i - 1].seqNo
      invariant sent == Lines(chunks[..i])
    {
      next := chunks[i].seqNo;
      var lines := Split(TrimNewlines(chunks[i].text), '\n');
      sent := SendNonEmpty(sent, lines);
      assert chunks[..i + 1][..i] == chunks[..i];
    }
    assert chunks[..|chunks|] == chunks;
  }

  // ---------------------------------------------------------------------------
  // The protocol
  // ---------------------------------------------------------------------------

  /** How far the end of the run has come; `Sinking` is the sink call inside `Close`. */
  datatype Ending = Running | Sinking(lines: seq<string>) | Flushed | Closed | Unsaved | Terminal

  /** The stream's handler; `Opened` and `Read` remember whether the row it read was terminal. */
  datatype Client = Absent | Opened(terminal: bool) | Polling | Emitted | LastEmit | Done

  datatype State = State(
    accepted: seq<string>,
    buffer: Buffer,
    inFlight: seq<seq<string>>,
    chunks: seq<Chunk>,
    lost: seq<string>,
    ending: Ending,
    client: Client,
    cursor: nat,
    received: seq<string>)

  const Start := State([], Buffer([], false, false), [], [], [], Running, Absent, 0, [])

  datatype Action =
    // a writer's section; a timer's section; the sink call of one of them
    | Write(line: string) | TimerFlush | Sink(which: nat, ok: bool)
    // the end of the run
    | CloseFlush | CloseSink(ok: bool) | CloseMark | SaveStatus(ok: bool)
    // the stream
    | Open | EmitChunks | ReadStatus

  predicate Enabled(s: State, a: Action) {
    match a
    case Write(line) => line != "" && OneLine(line)
    case TimerFlush => true
    case Sink(which, _) => which < |s.inFlight|
    case CloseFlush => s.ending.Running?
    case CloseSink(_) => s.ending.Sinking?
    case CloseMark => s.ending.Flushed?
    case SaveStatus(_) => s.ending.Closed?
    case Open => s.client.Absent?
    case EmitChunks => s.client.Opened? || s.client.Polling? || s.client.LastEmit?
    case ReadStatus => s.client.Emitted?
  }

  function Carry(inFlight: seq<seq<string>>, pending: seq<string>): seq<seq<string>> {
    if pending == [] then inFlight else inFlight + [pending]
  }

  function Stored(s: State, lines: seq<string>, ok: bool): State {
    if ok then s.(chunks := Appended(s.chunks, Text(lines))) else s.(lost := s.lost + lines)
  }

  function AfterEmit(c: Client): Client {
    match c
    case Opened(false) => Polling
    case Polling => Emitted
    case _ => Done
  }

  function Next(s: State, a: Action): State
    requires Enabled(s, a)
  {
    match a
    case Write(line) =>
      var (b, pending) := AfterWrite(s.buffer, line);
      s.(accepted := if s.buffer.closed then s.accepted else s.accepted + [line],
         buffer := b, inFlight := Carry(s.inFlight, pending))
    case TimerFlush =>
      var (b, pending) := AfterFlush(s.buffer);
      s.(buffer := b, inFlight := Carry(s.inFlight, pending))
    case Sink(which, ok) =>
      Stored(s.(inFlight := s.inFlight[..which] + s.inFlight[which + 1..]), s.inFlight[which], ok)
    case CloseFlush =>
      var (b, pending) := AfterFlush(s.buffer);
      s.(buffer := b, ending := if pending == [] then Flushed else Sinking(pending))
    case CloseSink(ok) => Stored(s.(ending := Flushed), s.ending.lines, ok)
    case CloseMark => s.(buffer := s.buffer.(closed := true), ending := Closed)
    case SaveStatus(ok) => s.(ending := if ok then Terminal else Unsaved)
    case Open => s.(client := Opened(s.ending.Terminal?))
    case EmitChunks =>
      var chunks := ChunksAfter(s.chunks, s.cursor);
      s.(client := AfterEmit(s.client), received := s.received + Lines(chunks),
         cursor := if chunks == [] then s.cursor else chunks[|chunks| - 1].seqNo)
    case ReadStatus => s.(client := if s.ending.Terminal? then LastEmit else Polling)
  }

  predicate Possible(s: State, run: seq<Action>)
    decreases |run|
  {
    run == [] || (Enabled(s, run[0]) && Possible(Next(s, run[0]), run[1..]))
  }

  function After(s: State, run: seq<Action>): State
    requires Possible(s, run)
    decreases |run|
  {
    if run == [] then s else After(Next(s, run[0]), run[1..])
  }

  // ---------------------------------------------------------------------------
  // What every interleaving keeps
  // ---------------------------------------------------------------------------

  function CloserLines(e: Ending): seq<string> {
    if e.Sinking? then e.lines else []
  }

  /** Lines written and not yet stored: with a sink, with `Close`, in the buffer or lost to a failed append. */
  function Outstanding(s: State): seq<string> {
    Flat(s.inFlight) + CloserLines(s.ending) + s.buffer.lines + s.lost
  }

  predicate Good(lines: seq<string>) {
    forall k :: 0 <= k < |lines| ==> lines[k] != "" && OneLine(lines[k])
  }

  /** Every accepted line is in exactly one place, as often as it was written. */
  ghost predicate Conserved(s: State) {
    multiset(s.accepted) == multiset(Lines(s.chunks)) + multiset(Outstanding(s))
  }

  ghost predicate Shape(s: State) {
    && Good(s.buffer.lines) && Good(CloserLines(s.ending))
    && (forall k :: 0 <= k < |s.inFlight| ==> s.inFlight[k] != [] && Good(s.inFlight[k]))
    && (s.buffer.lines != [] ==> s.buffer.armed)
    && (s.buffer.closed <==> s.ending.Closed? || s.ending.Unsaved? || s.ending.Terminal?)
  }

  /** Chunk numbers are 1, 2, 3, ..., and the reader has exactly the lines of the chunks up to its cursor. */
  ghost predicate Read(s: State) {
    && (forall k :: 0 <= k < |s.chunks| ==> s.chunks[k].seqNo == k + 1)
    && s.cursor <= |s.chunks|
    && s.received == Lines(s.chunks[..s.cursor])
    && (s.client.LastEmit? || s.client.Done? || (s.client.Opened? && s.client.terminal) ==> s.ending.Terminal?)
  }

  ghost predicate Invariant(s: State) {
    Conserved(s) && Shape(s) && Read(s)
  }

  // ---------------------------------------------------------------------------
  // Facts about chunks
  // ---------------------------------------------------------------------------

  lemma FlatAppend(chunks: seq<seq<string>>, chunk: seq<string>)
    ensures Flat(chunks + [chunk]) == Flat(chunks) + chunk
  {
    assert (chunks + [chunk])[..|chunks|] == chunks;
  }

  lemma {:induction false} FlatRemove(chunks: seq<seq<string>>, i: nat)
    requires i < |chunks|
    ensures multiset(Flat(chunks)) == multiset(Flat(chunks[..i] + chunks[i + 1..])) + multiset(chunks[i])
  {
    var (init, last) := (chunks[..|chunks| - 1], chunks[|chunks| - 1]);
    assert chunks == init + [last];
    if i == |chunks| - 1 {
      assert chunks[..i] + chunks[i + 1..] == init;
    } else {
      var (rest, whole) := (init[..i] + init[i + 1..], chunks[..i] + chunks[i + 1..]);
      assert init[i] == chunks[i];
      FlatRemove(init, i);
      assert whole == rest + [last];
      FlatAppend(rest, last);
      assert Flat(whole) == Flat(rest) + last;
      assert multiset(Flat(whole)) == multiset(Flat(rest)) + multiset(last);
    }
    assert multiset(Flat(chunks)) == multiset(Flat(init)) + multiset(last);
  }

  predicate Numbered(chunks: seq<Chunk>) {
    forall k :: 0 <= k < |chunks| ==> chunks[k].seqNo == k + 1
  }

  lemma {:induction false} LastNoIsCount(chunks: seq<Chunk>)
    requires Numbered(chunks)
    ensures LastNo(chunks) == |chunks|
  {
    if chunks != [] {
      LastNoIsCount(chunks[..|chunks| - 1]);
    }
  }

  lemma {:induction false} ChunksAfterCursor(chunks: seq<Chunk>, after: nat)
    requires Numbered(chunks) && after <= |chunks|
    ensures ChunksAfter(chunks, after) == chunks[after..]
  {
    if after == |chunks| {
      NoChunksAfter(chunks, after);
    } else {
      var last := |chunks| - 1;
      ChunksAfterCursor(chunks[..last], after);
      assert chunks[after..] == chunks[..last][after..] + [chunks[last]];
    }
  }

  lemma {:induction false} NoChunksAfter(chunks: seq<Chunk>, after: nat)
    requires Numbered(chunks) && |chunks| <= after
    ensures ChunksAfter(chunks, after) == []
  {
    if chunks != [] {
      NoChunksAfter(chunks[..|chunks| - 1], after);
    }
  }

  lemma LinesAppend(chunks: seq<Chunk>, chunk: Chunk)
    ensures Lines(chunks + [chunk]) == Lines(chunks) + Shown(chunk.text)
  {
    assert (chunks + [chunk])[..|chunks|] == chunks;
  }

  lemma LastApart(chunks: seq<Chunk>, n: nat)
    requires n < |chunks|
    ensures var (last, init) := (chunks[|chunks| - 1], chunks[..|chunks| - 1]);
      chunks == init + [last] && chunks[..n] == init[..n] && chunks[n..] == init[n..] + [last]
  {
  }

  lemma {:induction false} LinesSplit(chunks: seq<Chunk>, n: nat)
    requires n <= |chunks|
    ensures Lines(chunks) == Lines(chunks[..n]) + Lines(chunks[n..])
  {
    if n == |chunks| {
      assert chunks[..n] == chunks && chunks[n..] == [];
      assert Lines([]) == [];
      hide *;
    } else {
      hide *;
      var (last, init) := (chunks[|chunks| - 1], chunks[..|chunks| - 1]);
      LastApart(chunks, n);
      LinesSplit(init, n);
      LinesAppend(init, last);
      LinesAppend(init[n..], last);
      Associate(Lines(chunks[..n]), Lines(init[n..]), Shown(last.text));
    }
  }

  lemma {:induction false} NonEmptyKeeps(lines: seq<string>)
    requires Good(lines)
    ensures NonEmpty(lines) == lines
  {
    if lines != [] {
      NonEmptyKeeps(lines[1..]);
      assert lines == [lines[0]] + lines[1..];
    }
  }

  lemma ShownGood(lines: seq<string>)
    requires Good(lines)
    ensures Shown(Text(lines)) == lines
  {
    ShownText(lines);
    NonEmptyKeeps(lines);
  }

  // ---------------------------------------------------------------------------
  // One step
  // ---------------------------------------------------------------------------

  lemma StepKeepsShape(s: State, a: Action)
    requires Shape(s) && Enabled(s, a)
    ensures Shape(Next(s, a))
  {
    hide Text, Lines, ChunksAfter, Appended;
  }

  lemma StoringConserves(s: State, lines: seq<string>, ok: bool)
    requires Good(lines) && multiset(s.accepted) == multiset(Lines(s.chunks)) + multiset(Outstanding(s)) + multiset(lines)
    ensures Conserved(Stored(s, lines, ok))
  {
    if ok {
      LinesAppend(s.chunks, Chunk(LastNo(s.chunks) + 1, Text(lines)));
      ShownGood(lines);
    }
  }

  lemma OutstandingParts(s: State)
    ensures multiset(Outstanding(s)) == multiset(Flat(s.inFlight)) + multiset(CloserLines(s.ending))
                                        + multiset(s.buffer.lines) + multiset(s.lost)
  {
    hide Flat;
  }

  lemma CarriedLines(inFlight: seq<seq<string>>, pending: seq<string>)
    ensures multiset(Flat(Carry(inFlight, pending))) == multiset(Flat(inFlight)) + multiset(pending)
  {
    if pending == [] {
      assert multiset(pending) == multiset{};
    } else {
      FlatAppend(inFlight, pending);
      hide Flat;
    }
  }

  lemma BatchMoves(l: multiset<string>, f: multiset<string>, c: multiset<string>, gone: multiset<string>,
                   b: multiset<string>, after: multiset<string>, p: multiset<string>, more: multiset<string>)
    requires after + p == b + more
    ensures l + (f + c + b + gone) + more == l + (f + p + c + after + gone)
  {
    var (left, right) := (l + (f + c + b + gone) + more, l + (f + p + c + after + gone));
    forall x
      ensures left[x] == right[x]
    {
      assert (after + p)[x] == (b + more)[x];
    }
  }

  /** Only where unstored lines wait has changed, by one moved batch and one accepted line or none. */
  lemma MovedConserves(s: State, t: State, pending: seq<string>, line: seq<string>)
    requires Conserved(s) && t.chunks == s.chunks && t.lost == s.lost && CloserLines(t.ending) == CloserLines(s.ending)
    requires t.accepted == s.accepted + line && t.inFlight == Carry(s.inFlight, pending)
    requires multiset(t.buffer.lines) + multiset(pending) == multiset(s.buffer.lines) + multiset(line)
    ensures Conserved(t)
  {
    OutstandingParts(s);
    OutstandingParts(t);
    CarriedLines(s.inFlight, pending);
    hide Lines, Flat, Outstanding, CloserLines, Carry;
    assert multiset(s.accepted + line) == multiset(s.accepted) + multiset(line);
    BatchMoves(multiset(Lines(s.chunks)), multiset(Flat(s.inFlight)), multiset(CloserLines(s.ending)), multiset(s.lost),
               multiset(s.buffer.lines), multiset(t.buffer.lines), multiset(pending), multiset(line));
  }

  lemma WriteConserves(s: State, line: string)
    requires Conserved(s) && Enabled(s, Write(line))
    ensures Conserved(Next(s, Write(line)))
  {
    hide Conserved, Text, Carry;
    var (t, b) := (Next(s, Write(line)), s.buffer);
    var (after, pending) := AfterWrite(b, line);
    if b.closed {
      assert t.accepted == s.accepted + [];
      MovedConserves(s, t, pending, []);
    } else {
      assert after.lines + pending == b.lines + [line];
      assert multiset(after.lines + pending) == multiset(after.lines) + multiset(pending);
      MovedConserves(s, t, pending, [line]);
    }
  }

  lemma FlushConserves(s: State)
    requires Conserved(s)
    ensures Conserved(Next(s, TimerFlush))
  {
    hide Conserved, Text, Carry;
    assert s.accepted == s.accepted + [];
    MovedConserves(s, Next(s, TimerFlush), s.buffer.lines, []);
  }

  lemma CloseSinkConserves(s: State, ok: bool)
    requires Shape(s) && Conserved(s) && Enabled(s, CloseSink(ok))
    ensures Conserved(Next(s, CloseSink(ok)))
  {
    var u := s.(ending := Flushed);
    OutstandingParts(s);
    OutstandingParts(u);
    hide Text, Lines, Flat, Outstanding, Stored;
    StoringConserves(u, s.ending.lines, ok);
  }

  /** The rest moves no line. */
  lemma QuietConserves(s: State, a: Action)
    requires Conserved(s) && Enabled(s, a)
    requires a.CloseMark? || a.SaveStatus? || a.Open? || a.EmitChunks? || a.ReadStatus?
    ensures Conserved(Next(s, a))
  {
    hide Conserved, Lines, ChunksAfter, Flat, Carry;
    var t := Next(s, a);
    assert t.accepted == s.accepted && t.chunks == s.chunks && t.lost == s.lost;
    assert t.inFlight == s.inFlight && t.buffer.lines == s.buffer.lines && CloserLines(t.ending) == CloserLines(s.ending);
    SamePlaces(s, t);
  }

  lemma SamePlaces(s: State, t: State)
    requires Conserved(s) && t.accepted == s.accepted && t.chunks == s.chunks && t.lost == s.lost
    requires t.inFlight == s.inFlight && t.buffer.lines == s.buffer.lines && CloserLines(t.ending) == CloserLines(s.ending)
    ensures Conserved(t)
  {
    hide Lines, Flat, CloserLines;
  }

  lemma StepConserves(s: State, a: Action)
    requires Shape(s) && Conserved(s) && Enabled(s, a)
    ensures Conserved(Next(s, a))
  {
    hide *;
    match a
    case Write(line) => WriteConserves(s, line);
    case TimerFlush => FlushConserves(s);
    case Sink(which, ok) => SinkConserves(s, which, ok);
    case CloseFlush => CloseFlushConserves(s);
    case CloseSink(ok) => CloseSinkConserves(s, ok);
    case _ => QuietConserves(s, a);
  }

  lemma CloseFlushConserves(s: State)
    requires Conserved(s) && Enabled(s, CloseFlush)
    ensures Conserved(Next(s, CloseFlush))
  {
    var t := Next(s, CloseFlush);
    assert CloserLines(s.ending) == [] && CloserLines(t.ending) == s.buffer.lines && t.buffer.lines == [];
    assert t.inFlight == s.inFlight && t.lost == s.lost && t.chunks == s.chunks && t.accepted == s.accepted;
    OutstandingParts(s);
    OutstandingParts(t);
    hide Text, Lines, Flat, Outstanding, Next, CloserLines;
  }

  lemma SinkConserves(s: State, which: nat, ok: bool)
    requires Shape(s) && Conserved(s) && Enabled(s, Sink(which, ok))
    ensures Conserved(Next(s, Sink(which, ok)))
  {
    var u := s.(inFlight := s.inFlight[..which] + s.inFlight[which + 1..]);
    OutstandingParts(s);
    OutstandingParts(u);
    FlatRemove(s.inFlight, which);
    hide Text, Lines, Flat, Outstanding, Stored;
    StoringConserves(u, s.inFlight[which], ok);
  }

  lemma StepKeepsRead(s: State, a: Action)
    requires Read(s) && Enabled(s, a)
    ensures Read(Next(s, a))
  {
    hide Text, Lines, ChunksAfter, Shown, LastNo, AfterWrite, Carry;
    LastNoIsCount(s.chunks);
    if a.EmitChunks? {
      ChunksAfterCursor(s.chunks, s.cursor);
      LinesSplit(s.chunks, s.cursor);
      assert s.chunks[..|s.chunks|] == s.chunks;
    } else {
      assert Next(s, a).chunks[..s.cursor] == s.chunks[..s.cursor];
    }
  }

  lemma {:induction false} Keeps(s: State, run: seq<Action>)
    requires Invariant(s) && Possible(s, run)
    ensures Invariant(After(s, run))
    decreases |run|
  {
    hide Conserved, Shape, Read, Enabled, Next;
    if run != [] {
      StepKeepsShape(s, run[0]);
      StepConserves(s, run[0]);
      StepKeepsRead(s, run[0]);
      Keeps(Next(s, run[0]), run[1..]);
    }
  }
}
