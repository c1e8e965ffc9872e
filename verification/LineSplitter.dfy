/**
 Client.lines: the serial line splitter, which keeps an unfinished line between
 chunks and drops a line whole once it exceeds 255 bytes.
 */
module LineSplitter {
  import opened Bytes
  import opened Sequences

  const LF: byte := 10
  const CR: byte := 13
  const LIMIT: nat := 255

  type Line = seq<byte>

  // ----------------------------------------------- what a stream's lines are

  /** The LF-terminated segments of a stream, in order, without their LF. */
  function Segments(stream: seq<byte>): seq<Line> {
    if stream == [] then []
    else
      var front, b := stream[..|stream| - 1], stream[|stream| - 1];
      if b == 10 then Segments(front) + [Tail(front)] else Segments(front)
  }

  /** What follows the last LF. */
  function Tail(stream: seq<byte>): Line {
    if stream == [] then []
    else
      var front, b := stream[..|stream| - 1], stream[|stream| - 1];
      if b == 10 then [] else Tail(front) + [b]
  }

  function Rejoined(segments: seq<Line>): seq<byte> {
    if segments == [] then []
    else Rejoined(segments[..|segments| - 1]) + segments[|segments| - 1] + [LF]
  }

  /** Segments and tail are the stream cut at its LFs, */
  lemma {:induction false} SegmentsRejoin(stream: seq<byte>)
    ensures Rejoined(Segments(stream)) + Tail(stream) == stream
    decreases |stream|
  {
    if stream != [] {
      var front, b := stream[..|stream| - 1], stream[|stream| - 1];
      SegmentsRejoin(front);
      var s, t := Segments(front), Tail(front);
      if b == LF {
        assert (s + [t])[..|s|] == s;
        calc {
          Rejoined(s + [t]) + [];
          Rejoined(s) + t + [LF];
          front + [b];
          stream;
        }
      } else {
        assert Rejoined(s) + (t + [b]) == (Rejoined(s) + t) + [b];
      }
    }
  }

  /** none of them holds an LF, */
  lemma {:induction false} SegmentsHoldNoLf(stream: seq<byte>)
    ensures LF !in Tail(stream)
    ensures forall i :: 0 <= i < |Segments(stream)| ==> LF !in Segments(stream)[i]
    decreases |stream|
  {
    if stream != [] { SegmentsHoldNoLf(stream[..|stream| - 1]); }
  }

  /** and there is no other way to cut it so. */
  lemma {:induction false} CutIsUnique(segments: seq<Line>, tail: Line)
    requires LF !in tail && forall i :: 0 <= i < |segments| ==> LF !in segments[i]
    ensures Segments(Rejoined(segments) + tail) == segments && Tail(Rejoined(segments) + tail) == tail
    decreases |segments|, |tail|
  {
    var stream := Rejoined(segments) + tail;
    if tail != [] {
      var n := |tail| - 1;
      assert stream[..|stream| - 1] == Rejoined(segments) + tail[..n];
      CutIsUnique(segments, tail[..n]);
    } else if segments != [] {
      var n := |segments| - 1;
      assert stream[..|stream| - 1] == Rejoined(segments[..n]) + segments[n];
      CutIsUnique(segments[..n], segments[n]);
    }
  }

  /** rstrip(b"\\r") */
  function Stripped(line: Line): (r: Line)
    ensures r <= line && (r != [] ==> r[|r| - 1] != 13)
    ensures forall i :: |r| <= i < |line| ==> line[i] == 13
  {
    if line != [] && line[|line| - 1] == CR then Stripped(line[..|line| - 1]) else line
  }

  /** Segments of at most 255 bytes, stripped; longer ones are dropped whole. */
  function Kept(segments: seq<Line>): seq<Line> {
    if segments == [] then []
    else
      var front, last := Kept(segments[..|segments| - 1]), segments[|segments| - 1];
      if |last| <= 255 then front + [Stripped(last)] else front
  }

  function LinesOf(stream: seq<byte>): seq<Line> {
    Kept(Segments(stream))
  }

  /** One more byte: a line is added exactly when it ends a segment that fits. */
  lemma OneMoreByte(stream: seq<byte>, b: byte)
    ensures LinesOf(stream + [b]) ==
            if b == LF && |Tail(stream)| <= LIMIT then LinesOf(stream) + [Stripped(Tail(stream))] else LinesOf(stream)
    ensures Tail(stream + [b]) == if b == LF then [] else Tail(stream) + [b]
  {
    var s := Segments(stream);
    assert (stream + [b])[..|stream|] == stream;
    assert (s + [Tail(stream)])[..|s|] == s;
  }

  // ---------------------------------------------------------- the splitter

  class LineReader {
    var pending: seq<byte>
    var discardLine: bool
    ghost var consumed: seq<byte>    // every byte ever fed

    /** The kept state is a function of the stream alone. */
    ghost predicate Valid()
      reads this
    {
      if |Tail(consumed)| <= LIMIT
      then !discardLine && pending == Tail(consumed)
      else discardLine && pending == []
    }

    constructor ()
      ensures Valid() && consumed == []
    {
      pending, discardLine, consumed := [], false, [];
    }

    /** One fully consumed chunk. */
    method Lines(chunk: seq<byte>) returns (lines: seq<Line>)
      requires Valid()
      modifies this
      ensures Valid() && consumed == old(consumed) + chunk
      ensures LinesOf(consumed) == LinesOf(old(consumed)) + lines
    {
      hide LinesOf, Tail, Stripped;
      lines := [];
      for i := 0 to |chunk|
        invariant Valid() && consumed == old(consumed) + chunk[..i]
        invariant LinesOf(consumed) == LinesOf(old(consumed)) + lines
      {
        var b := chunk[i];
        OneMoreByte(consumed, b);
        assert chunk[..i + 1] == chunk[..i] + [b];
        if b == LF {
          if !discardLine { lines := lines + [Stripped(pending)]; }
          pending, discardLine := [], false;
        } else if !discardLine {
          pending := pending + [b];
          if |pending| > LIMIT {
            pending, discardLine := [], true;
          }
        }
        consumed := consumed + [b];
      }
      assert chunk[..|chunk|] == chunk;
    }
  }

  /** Reading a stream in any chunks whatever yields the lines of the stream. */
  method ReadAll(chunks: seq<seq<byte>>) returns (lines: seq<Line>)
    ensures lines == LinesOf(Flattened(chunks))
  {
    var reader := new LineReader();
    lines := [];
    for i := 0 to |chunks|
      invariant reader.Valid() && reader.consumed == Flattened(chunks[..i])
      invariant lines == LinesOf(reader.consumed)
    {
      var more := reader.Lines(chunks[i]);
      assert chunks[..i + 1][..i] == chunks[..i];
      lines := lines + more;
    }
    assert chunks[..|chunks|] == chunks;
  }
}
