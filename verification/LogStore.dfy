/** The table of log chunks, shared by all runs. */
module LogStore {
  import opened Core
  import opened RunLogText
  import opened LogStream

  datatype Row = Row(run: string, chunk: Chunk)

  function ChunksOf(rows: seq<Row>, run: string): seq<Chunk> {
    if rows == [] then []
    else
      var rest := ChunksOf(rows[..|rows| - 1], run);
      if rows[|rows| - 1].run == run then rest + [rows[|rows| - 1].chunk] else rest
  }

  lemma ChunksOfAppend(rows: seq<Row>, row: Row, run: string)
    ensures ChunksOf(rows + [row], run) == if row.run == run then ChunksOf(rows, run) + [row.chunk] else ChunksOf(rows, run)
  {
    assert (rows + [row])[..|rows|] == rows;
  }

  lemma LastNoAppend(chunks: seq<Chunk>, chunk: Chunk)
    ensures LastNo(chunks + [chunk]) == if chunk.seqNo > LastNo(chunks) then chunk.seqNo else LastNo(chunks)
  {
    assert (chunks + [chunk])[..|chunks|] == chunks;
  }

  lemma ChunksAfterAppend(chunks: seq<Chunk>, chunk: Chunk, after: nat)
    ensures ChunksAfter(chunks + [chunk], after)
         == if chunk.seqNo > after then ChunksAfter(chunks, after) + [chunk] else ChunksAfter(chunks, after)
  {
    assert (chunks + [chunk])[..|chunks|] == chunks;
  }

  class RunLogs {
    var rows: seq<Row>

    /** Each run's chunks are numbered from one, whatever is stored for other runs. */
    ghost predicate Valid()
      reads this
    {
      forall run :: Numbered(ChunksOf(rows, run))
    }

    constructor ()
      ensures Valid() && rows == []
    {
      rows := [];
    }

    method AppendLog(run: string, text: string, ok: bool) returns (seqNo: Option<nat>)
      requires Valid()
      modifies this
      ensures Valid()
      ensures ok ==> seqNo == Some(|ChunksOf(old(rows), run)| + 1)
      ensures ChunksOf(rows, run) == if ok then Appended(ChunksOf(old(rows), run), text) else ChunksOf(old(rows), run)
      ensures forall other :: other != run ==> ChunksOf(rows, other) == ChunksOf(old(rows), other)
    {
      var next := 0;
      for i := 0 to |rows|
        modifies {}
        invariant next == LastNo(ChunksOf(rows[..i], run))
      {
        ChunksOfAppend(rows[..i], rows[i], run);
        LastNoAppend(ChunksOf(rows[..i], run), rows[i].chunk);
        assert rows[..i + 1] == rows[..i] + [rows[i]];
        if rows[i].run == run && rows[i].chunk.seqNo > next {
          next := rows[i].chunk.seqNo;
        }
      }
      assert rows[..|rows|] == rows;
      LastNoIsCount(ChunksOf(rows, run));
      if !ok {
        return None;
      }
      var row := Row(run, Chunk(next + 1, text));
      forall other {
        ChunksOfAppend(rows, row, other);
      }
      rows := rows + [row];
      return Some(next + 1);
    }

    method LogChunks(run: string, after: nat) returns (out: seq<Chunk>)
      ensures out == ChunksAfter(ChunksOf(rows, run), after)
    {
      out := [];
      for i := 0 to |rows|
        invariant out == ChunksAfter(ChunksOf(rows[..i], run), after)
      {
        ChunksOfAppend(rows[..i], rows[i], run);
        ChunksAfterAppend(ChunksOf(rows[..i], run), rows[i].chunk, after);
        assert rows[..i + 1] == rows[..i] + [rows[i]];
        if rows[i].run == run && rows[i].chunk.seqNo > after {
          out := out + [rows[i].chunk];
        }
      }
      assert rows[..|rows|] == rows;
    }

    /** The whole log; its lines are those of the run's chunks. */
    method Log(run: string) returns (text: string)
      requires Valid()
      ensures text == Joined(ChunksOf(rows, run))
    {
      var chunks := LogChunks(run, 0);
      ChunksAfterCursor(ChunksOf(rows, run), 0);
      assert ChunksOf(rows, run)[0..] == ChunksOf(rows, run);
      text := "";
      for i := 0 to |chunks|
        invariant text == Joined(chunks[..i])
      {
        text := text + chunks[i].text;
        assert chunks[..i + 1][..i] == chunks[..i];
      }
      assert chunks[..|chunks|] == chunks;
    }
  }

  function Joined(chunks: seq<Chunk>): string {
    if chunks == [] then "" else Joined(chunks[..|chunks| - 1]) + chunks[|chunks| - 1].text
  }

  lemma {:induction false} JoinedText(chunks: seq<Chunk>, lines: seq<seq<string>>)
    requires |lines| == |chunks|
    requires forall k :: 0 <= k < |chunks| ==> Good(lines[k]) && chunks[k].text == Text(lines[k])
    ensures Joined(chunks) == Text(Flat(lines)) && Lines(chunks) == Flat(lines) && Good(Flat(lines))
  {
    if chunks != [] {
      hide Text, Shown;
      var last := |chunks| - 1;
      JoinedText(chunks[..last], lines[..last]);
      TextAppend(Flat(lines[..last]), lines[last]);
      ShownGood(lines[last]);
    }
  }

  /** Splitting the whole log gives the lines a reader of the stream gets chunk by chunk. */
  lemma WholeLogShowsTheStreamedLines(chunks: seq<Chunk>, lines: seq<seq<string>>)
    requires |lines| == |chunks|
    requires forall k :: 0 <= k < |chunks| ==> Good(lines[k]) && chunks[k].text == Text(lines[k])
    ensures Shown(Joined(chunks)) == Lines(chunks)
  {
    JoinedText(chunks, lines);
    ShownGood(Flat(lines));
  }
}
