/**
 * What the run log and its stream promise: nothing is lost or doubled under any
 * interleaving; order and completeness at `done` under exactly stated conditions.
 */
module LogStreamTheorems {
  import opened RunLogText
  import opened LogStream
  import opened Strings

  /** The lines of the writes that came before the log was marked closed. */
  function Writes(run: seq<Action>): seq<string> {
    if run == [] || run[0].CloseMark? then []
    else (if run[0].Write? then [run[0].line] else []) + Writes(run[1..])
  }

  lemma StartIsGood()
    ensures Invariant(Start)
  {
  }

  lemma {:induction false} AcceptedAreTheWrites(s: State, run: seq<Action>)
    requires Possible(s, run) && !s.buffer.closed
    ensures After(s, run).accepted == s.accepted + Writes(run)
    decreases |run|
  {
    if run != [] {
      var t := Next(s, run[0]);
      if run[0].CloseMark? {
        ClosedIgnoresWrites(t, run[1..]);
      } else {
        assert !t.buffer.closed && t.accepted == s.accepted + (if run[0].Write? then [run[0].line] else []) by {
          hide Text, Lines, ChunksAfter, LastNo;
        }
        AcceptedAreTheWrites(t, run[1..]);
      }
    }
  }

  lemma {:induction false} ClosedIgnoresWrites(s: State, run: seq<Action>)
    requires Possible(s, run) && s.buffer.closed
    ensures After(s, run).accepted == s.accepted
    decreases |run|
  {
    if run != [] {
      var t := Next(s, run[0]);
      assert t.buffer.closed && t.accepted == s.accepted by {
        hide Text, Lines, ChunksAfter, LastNo;
      }
      ClosedIgnoresWrites(t, run[1..]);
    }
  }

  /**
   * Under every interleaving of writers, timers, failing sinks, the end of the
   * run and a reader, each line written before the log closed is in exactly one
   * place as often as it was written, a buffered line has a timer coming, and
   * the reader holds the chunks up to its cursor, once and in their order.
   */
  lemma NoLineIsLostOrDoubled(run: seq<Action>)
    requires Possible(Start, run)
    ensures var s := After(Start, run);
      && multiset(Writes(run)) == multiset(Lines(s.chunks)) + multiset(Outstanding(s))
      && (s.buffer.lines != [] ==> s.buffer.armed)
      && s.cursor <= |s.chunks| && s.received == Lines(s.chunks[..s.cursor])
  {
    StartIsGood();
    Keeps(Start, run);
    AcceptedAreTheWrites(Start, run);
    hide After, Possible, Lines, Outstanding, Writes;
    assert Start.accepted + Writes(run) == Writes(run);
  }

  // ---------------------------------------------------------------------------
  // Order
  // ---------------------------------------------------------------------------

  predicate InTransit(s: State) {
    s.inFlight != [] || s.ending.Sinking?
  }

  /** No sink fails, and no chunk leaves the buffer while another is on its way to the store. */
  predicate Serial(s: State, a: Action)
    requires Enabled(s, a)
  {
    && (a.Sink? || a.CloseSink? ==> a.ok)
    && (InTransit(s) ==> !a.CloseFlush? && |Next(s, a).inFlight| <= |s.inFlight|)
  }

  predicate SerialRun(s: State, run: seq<Action>)
    requires Possible(s, run)
    decreases |run|
  {
    run == [] || (Serial(s, run[0]) && SerialRun(Next(s, run[0]), run[1..]))
  }

  /** The one chunk on its way to the store, if there is one. */
  function OnTheWay(s: State): seq<string> {
    if s.ending.Sinking? then s.ending.lines else if s.inFlight == [] then [] else s.inFlight[0]
  }

  ghost predicate InOrder(s: State) {
    && s.lost == []
    && |s.inFlight| <= (if s.ending.Sinking? then 0 else 1)
    && s.accepted == Lines(s.chunks) + (OnTheWay(s) + s.buffer.lines)
  }

  lemma AppendedLines(chunks: seq<Chunk>, lines: seq<string>)
    requires Good(lines)
    ensures Lines(Appended(chunks, Text(lines))) == Lines(chunks) + lines
  {
    LinesAppend(chunks, Chunk(LastNo(chunks) + 1, Text(lines)));
    ShownGood(lines);
  }

  lemma WriteKeepsOrder(s: State, line: string)
    requires InOrder(s) && Enabled(s, Write(line)) && Serial(s, Write(line))
    ensures InOrder(Next(s, Write(line)))
  {
    hide Text, Lines;
    var t := Next(s, Write(line));
    var (stored, way, buffered) := (Lines(s.chunks), OnTheWay(s), s.buffer.lines);
    if !s.buffer.closed {
      if t.buffer.lines == [] {
        assert way == [] && OnTheWay(t) == buffered + [line];
        assert stored + (way + buffered) + [line] == stored + (buffered + [line] + []);
      } else {
        assert OnTheWay(t) == way;
        assert stored + (way + buffered) + [line] == stored + (way + (buffered + [line]));
      }
    }
  }

  lemma StoringKeepsOrder(s: State, t: State)
    requires InOrder(s) && Good(OnTheWay(s))
    requires t.lost == [] && t.inFlight == [] && OnTheWay(t) == [] && t.buffer.lines == s.buffer.lines
    requires t.accepted == s.accepted && t.chunks == Appended(s.chunks, Text(OnTheWay(s)))
    ensures InOrder(t)
  {
    AppendedLines(s.chunks, OnTheWay(s));
    hide Text, Lines, Appended;
    var (stored, way, buffered) := (Lines(s.chunks), OnTheWay(s), s.buffer.lines);
    assert stored + (way + buffered) == (stored + way) + ([] + buffered);
  }

  lemma StepKeepsOrder(s: State, a: Action)
    requires InOrder(s) && Shape(s) && Enabled(s, a) && Serial(s, a)
    ensures InOrder(Next(s, a))
  {
    hide Text, Lines, LastNo, ChunksAfter, Appended;
    match a
    case Write(line) => WriteKeepsOrder(s, line);
    case TimerFlush =>
      assert s.buffer.lines != [] ==> OnTheWay(s) == [];
      assert OnTheWay(s) + s.buffer.lines == OnTheWay(Next(s, a)) + [];
    case Sink(which, _) =>
      assert which == 0 && s.inFlight == [s.inFlight[0]];
      assert s.inFlight[..which] + s.inFlight[which + 1..] == [];
      StoringKeepsOrder(s, Next(s, a));
    case CloseFlush =>
      assert OnTheWay(s) == [];
      assert OnTheWay(s) + s.buffer.lines == OnTheWay(Next(s, a)) + [];
    case CloseSink(_) => StoringKeepsOrder(s, Next(s, a));
    case _ =>
  }

  lemma {:induction false} KeepsOrder(s: State, run: seq<Action>)
    requires InOrder(s) && Shape(s) && Possible(s, run) && SerialRun(s, run)
    ensures InOrder(After(s, run))
    decreases |run|
  {
    hide InOrder, Shape, Enabled, Next, Serial;
    if run != [] {
      StepKeepsOrder(s, run[0]);
      StepKeepsShape(s, run[0]);
      KeepsOrder(Next(s, run[0]), run[1..]);
    }
  }

  /** With serial flushes a reader has, at every moment, a prefix of the lines in the order they were written. */
  lemma ReaderSeesAPrefix(run: seq<Action>)
    requires Possible(Start, run) && SerialRun(Start, run)
    ensures After(Start, run).received <= Writes(run)
  {
    StartIsGood();
    KeepsOrder(Start, run);
    Keeps(Start, run);
    AcceptedAreTheWrites(Start, run);
    var s := After(Start, run);
    LinesSplit(s.chunks, s.cursor);
    hide After, Possible, SerialRun, Lines, Writes, OnTheWay;
    assert Start.accepted + Writes(run) == Writes(run);
    Associate(s.received, Lines(s.chunks[s.cursor..]), OnTheWay(s) + s.buffer.lines);
  }

  // ---------------------------------------------------------------------------
  // Completeness at `done`
  // ---------------------------------------------------------------------------

  ghost predicate Quiet(s: State) {
    Outstanding(s) == []
  }

  /** The end is stored and nothing is on its way: only the reader still moves. */
  ghost predicate Settled(s: State) {
    Shape(s) && Read(s) && s.ending.Terminal? && Quiet(s) && (s.client.Done? ==> s.cursor == |s.chunks|)
  }

  lemma QuietParts(s: State)
    requires Shape(s)
    ensures Quiet(s) <==> s.inFlight == [] && CloserLines(s.ending) == [] && s.buffer.lines == [] && s.lost == []
  {
    if s.inFlight != [] {
      assert s.inFlight == s.inFlight[..|s.inFlight| - 1] + [s.inFlight[|s.inFlight| - 1]];
    }
  }

  lemma SettledStays(s: State, a: Action)
    requires Settled(s) && Enabled(s, a)
    ensures Settled(Next(s, a)) && Next(s, a).accepted == s.accepted && Next(s, a).chunks == s.chunks
  {
    QuietParts(s);
    StepKeepsShape(s, a);
    StepKeepsRead(s, a);
    LastNoIsCount(s.chunks);
    ChunksAfterCursor(s.chunks, s.cursor);
    QuietParts(Next(s, a));
    hide Text, Lines, Flat, Outstanding, Quiet, Shape, Read, ChunksAfter;
    assert s.buffer.closed && s.inFlight == [] && s.cursor <= |s.chunks| by { QuietParts(s); }
  }

  lemma {:induction false} SettledForGood(s: State, run: seq<Action>)
    requires Settled(s) && Possible(s, run)
    ensures Settled(After(s, run)) && After(s, run).accepted == s.accepted && After(s, run).chunks == s.chunks
    decreases |run|
  {
    hide Settled, Enabled, Next;
    if run != [] {
      SettledStays(s, run[0]);
      SettledForGood(Next(s, run[0]), run[1..]);
    }
  }

  /** Steps of the reader alone that bring it to `done`. */
  function Rest(c: Client): seq<Action> {
    match c
    case Absent => [Open, EmitChunks]
    case Opened(true) => [EmitChunks]
    case Opened(false) => [EmitChunks, EmitChunks, ReadStatus, EmitChunks]
    case Polling => [EmitChunks, ReadStatus, EmitChunks]
    case Emitted => [ReadStatus, EmitChunks]
    case LastEmit => [EmitChunks]
    case Done => []
  }

  lemma {:induction false} ReaderCanFinish(s: State)
    requires s.ending.Terminal?
    ensures Possible(s, Rest(s.client))
    ensures var t := After(s, Rest(s.client));
      t.client.Done? && t.accepted == s.accepted && t.chunks == s.chunks && Outstanding(t) == Outstanding(s)
    decreases |Rest(s.client)|
  {
    hide Lines, ChunksAfter, LastNo, Flat;
    var run := Rest(s.client);
    if !s.client.Done? {
      var t := Next(s, run[0]);
      assert run[1..] == Rest(t.client);
      assert Outstanding(t) == Outstanding(s);
      ReaderCanFinish(t);
    }
  }

  /**
   * Once the terminal status is stored, a reader that is still to finish gets
   * every accepted line exactly once before `done`, whatever happens next, if
   * and only if no line is buffered, with a sink or lost at that moment.
   */
  lemma DoneIsCompleteExactlyWhenQuiet(run: seq<Action>)
    requires Possible(Start, run) && After(Start, run).ending.Terminal? && !After(Start, run).client.Done?
    ensures var s := After(Start, run);
      Quiet(s) <==> (forall more :: Possible(s, more) && After(s, more).client.Done?
                       ==> multiset(After(s, more).received) == multiset(s.accepted))
  {
    StartIsGood();
    Keeps(Start, run);
    var s := After(Start, run);
    if Quiet(s) {
      forall more | Possible(s, more) && After(s, more).client.Done?
        ensures multiset(After(s, more).received) == multiset(s.accepted)
      {
        SettledReaderHasAll(s, more);
      }
    } else {
      var more := Rest(s.client);
      ReaderCanFinish(s);
      var t := After(s, more);
      Keeps(s, more);
      ShortReader(t);
    }
  }

  lemma SettledReaderHasAll(s: State, more: seq<Action>)
    requires Invariant(s) && s.ending.Terminal? && !s.client.Done? && Quiet(s)
    requires Possible(s, more) && After(s, more).client.Done?
    ensures multiset(After(s, more).received) == multiset(s.accepted)
  {
    SettledForGood(s, more);
    var t := After(s, more);
    assert t.chunks[..t.cursor] == t.chunks;
    assert t.received == Lines(s.chunks);
    hide After, Possible, Lines;
  }

  lemma ShortReader(t: State)
    requires Invariant(t) && !Quiet(t)
    ensures multiset(t.received) != multiset(t.accepted)
  {
    LinesSplit(t.chunks, t.cursor);
    var (kept, past) := (Lines(t.chunks[..t.cursor]), Lines(t.chunks[t.cursor..]));
    hide Lines, Outstanding;
    assert |multiset(t.accepted)| == |kept + past| + |Outstanding(t)|;
  }

  /** Serial steps in which, besides, nothing is written between the two sections of `Close`. */
  predicate Calm(s: State, a: Action)
    requires Enabled(s, a)
  {
    Serial(s, a) && (a.Write? ==> !s.ending.Sinking? && !s.ending.Flushed?)
  }

  predicate CalmRun(s: State, run: seq<Action>)
    requires Possible(s, run)
    decreases |run|
  {
    run == [] || (Calm(s, run[0]) && CalmRun(Next(s, run[0]), run[1..]))
  }

  ghost predicate QuietOnceFlushed(s: State) {
    && (!s.ending.Running? ==> s.inFlight == [] && s.buffer.lines == [])
    && s.lost == []
    && (s.client.Done? ==> s.cursor == |s.chunks|)
  }

  lemma CalmKeepsQuiet(s: State, a: Action)
    requires QuietOnceFlushed(s) && Shape(s) && Read(s) && Enabled(s, a) && Calm(s, a)
    ensures QuietOnceFlushed(Next(s, a))
  {
    if a.EmitChunks? {
      ChunksAfterCursor(s.chunks, s.cursor);
    }
    hide Text, Lines, ChunksAfter, LastNo;
  }

  lemma {:induction false} CalmKeepsQuietForGood(s: State, run: seq<Action>)
    requires QuietOnceFlushed(s) && Shape(s) && Read(s) && Possible(s, run) && CalmRun(s, run)
    ensures QuietOnceFlushed(After(s, run)) && SerialRun(s, run)
    decreases |run|
  {
    hide QuietOnceFlushed, Shape, Read, Enabled, Next, Serial;
    if run != [] {
      CalmKeepsQuiet(s, run[0]);
      StepKeepsShape(s, run[0]);
      StepKeepsRead(s, run[0]);
      CalmKeepsQuietForGood(Next(s, run[0]), run[1..]);
    }
  }

  /**
   * When each flush runs alone, none fails and nothing is written inside
   * `Close`, a reader has every line, once and in order, before it gets `done`:
   * the log is closed before the terminal status is stored, and the handler
   * reads the chunks once more after it has seen that status.
   */
  lemma DoneHasEveryLineInOrder(run: seq<Action>)
    requires Possible(Start, run) && CalmRun(Start, run) && After(Start, run).client.Done?
    ensures After(Start, run).received == Writes(run)
  {
    StartIsGood();
    CalmKeepsQuietForGood(Start, run);
    KeepsOrder(Start, run);
    Keeps(Start, run);
    AcceptedAreTheWrites(Start, run);
    var s := After(Start, run);
    assert s.chunks[..s.cursor] == s.chunks;
    assert OnTheWay(s) + s.buffer.lines == [];
    hide After, Possible, CalmRun, SerialRun, Lines, Writes;
    assert Start.accepted + Writes(run) == Writes(run);
  }

  /** The end of a run whose only line is still with a timer's sink. */
  lemma EmittingNothing(s: State, t: State)
    requires s.chunks == [] && s.client == Opened(true) && t == s.(client := Done)
    ensures Enabled(s, EmitChunks) && Next(s, EmitChunks) == t
  {
    assert ChunksAfter([], s.cursor) == [] && Lines([]) == [];
    hide ChunksAfter, Lines;
    assert s.received + [] == s.received;
  }

  lemma EndWithALineInFlight(s: State)
    requires s == Start.(accepted := ["x"], inFlight := [["x"]])
    ensures var run := [CloseFlush, CloseMark, SaveStatus(true), Open, EmitChunks];
      Possible(s, run) && After(s, run) == s.(buffer := Buffer([], false, true), ending := Terminal, client := Done)
  {
    var s3 := s.(ending := Flushed);
    var s4 := s3.(buffer := Buffer([], false, true), ending := Closed);
    var s5 := s4.(ending := Terminal);
    var s6 := s5.(client := Opened(true));
    var s7 := s6.(client := Done);
    assert Possible(s7, []) && After(s7, []) == s7;
    hide Text, Lines, ChunksAfter, Possible, After;
    EmittingNothing(s6, s7);
    assert Next(s, CloseFlush) == s3 && Next(s3, CloseMark) == s4 && Next(s4, SaveStatus(true)) == s5 && Next(s5, Open) == s6;
    hide Next;
    RunOf(s6, s7, EmitChunks, []);
    RunOf(s5, s7, Open, [EmitChunks]);
    RunOf(s4, s7, SaveStatus(true), [Open, EmitChunks]);
    RunOf(s3, s7, CloseMark, [SaveStatus(true), Open, EmitChunks]);
    RunOf(s, s7, CloseFlush, [CloseMark, SaveStatus(true), Open, EmitChunks]);
  }

  /** A timer's flush still in its sink when the run ends: the reader is told `done` without the line. */
  lemma DoneCanComeEarly()
    ensures var run := [Write("x"), TimerFlush, CloseFlush, CloseMark, SaveStatus(true), Open, EmitChunks];
      Possible(Start, run) && After(Start, run).client.Done? && After(Start, run).received == [] && Writes(run) == ["x"]
  {
    var tail := [CloseFlush, CloseMark, SaveStatus(true), Open, EmitChunks];
    assert Writes([Write("x"), TimerFlush] + tail) == ["x"];
    assert |Text(["x"])| == 2;
    assert [] + ["x"] == ["x"] && [] + [["x"]] == [["x"]];
    hide Text, Lines, ChunksAfter, Writes, Possible, After;
    var s1 := Start.(accepted := ["x"], buffer := Buffer(["x"], true, false));
    var s2 := Start.(accepted := ["x"], inFlight := [["x"]]);
    EndWithALineInFlight(s2);
    var end := After(s2, tail);
    assert Next(Start, Write("x")) == s1 && Next(s1, TimerFlush) == s2;
    hide Next;
    RunOf(s1, end, TimerFlush, tail);
    RunOf(Start, end, Write("x"), [TimerFlush] + tail);
    assert [Write("x")] + ([TimerFlush] + tail) == [Write("x"), TimerFlush, CloseFlush, CloseMark, SaveStatus(true), Open, EmitChunks];
  }

  lemma RunOf(s: State, end: State, a: Action, rest: seq<Action>)
    requires Enabled(s, a) && Possible(Next(s, a), rest) && After(Next(s, a), rest) == end
    ensures Possible(s, [a] + rest) && After(s, [a] + rest) == end
  {
    assert ([a] + rest)[1..] == rest;
  }
}
