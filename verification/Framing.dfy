/**
 Lines over a pipe: the helper's frame reader and the client's response splitter, both fed
 with chunks of any size.
 */
module Framing {
  import opened LineLog

  const MAX_LINE_BYTES := 65536
  const CR: Byte := 13

  datatype Frame = Content(bytes: Bytes) | Oversize

  function Concat(chunks: seq<Bytes>): Bytes {
    if chunks == [] then [] else chunks[0] + Concat(chunks[1..])
  }

  lemma ConcatCons(head: Bytes, tail: seq<Bytes>)
    ensures Concat([head] + tail) == head + Concat(tail)
  {
    assert ([head] + tail)[1..] == tail;
  }

  /** What a line of the stream is read as. */
  function FrameOf(line: Bytes): Frame {
    if |line| + 1 > MAX_LINE_BYTES then Oversize
    else Content(if line != [] && line[|line| - 1] == CR then line[..|line| - 1] else line)
  }

  lemma FrameIs(line: Bytes)
    ensures FrameOf(line) == if |line| + 1 > MAX_LINE_BYTES then Oversize
                             else Content(if line != [] && line[|line| - 1] == CR then line[..|line| - 1] else line)
  {
  }

  function FramesOf(lines: seq<Bytes>): seq<Frame> {
    seq(|lines|, i requires 0 <= i < |lines| => FrameOf(lines[i]))
  }

  /** A whole part of a stream is split by itself. */
  lemma {:induction false} LinesConcat(whole: Bytes, more: Bytes)
    requires Whole(whole)
    ensures SplitLines(whole + more) == Split(Lines(whole) + Lines(more), Tail(more))
  {
    TailOfWhole(whole);
    if more == [] {
      assert whole + more == whole && Lines(whole) + [] == Lines(whole);
    } else {
      var n := |more| - 1;
      assert whole + more == (whole + more[..n]) + [more[n]];
      LinesConcat(whole, more[..n]);
      SplitByte(whole + more[..n], more[n]);
      if more[n] == LF { assert Lines(whole) + Lines(more) == Lines(whole) + Lines(more[..n]) + [Tail(more[..n])]; }
    }
  }

  lemma CutAtNewline(bytes: Bytes, k: nat)
    requires k < |bytes| && bytes[k] == LF
    ensures bytes == bytes[..k] + [LF] + bytes[k + 1..]
  {
  }

  /** The position of the first newline in a chunk. */
  method IndexOfNewline(bytes: Bytes) returns (at: Option<nat>)
    ensures at.None? <==> LF !in bytes
    ensures at.Some? ==> at.value < |bytes| && bytes[at.value] == LF && LF !in bytes[..at.value]
  {
    for k := 0 to |bytes|
      invariant LF !in bytes[..k]
    {
      if bytes[k] == LF { return Some(k); }
      assert bytes[..k + 1] == bytes[..k] + [bytes[k]];
    }
    assert bytes[..|bytes|] == bytes;
    at := None;
  }

  /** A buffered reader: chunks as they become available, none of them empty. */
  class Reader {
    var chunks: seq<Bytes>

    constructor (chunks: seq<Bytes>)
      requires [] !in chunks
      ensures Valid() && Remaining() == Concat(chunks)
    {
      this.chunks := chunks;
    }

    ghost predicate Valid()
      reads this
    {
      [] !in chunks
    }

    ghost function Remaining(): Bytes
      reads this
    {
      Concat(chunks)
    }

    /** The bytes available now; empty only at the end of the stream. */
    function FillBuf(): (available: Bytes)
      requires Valid()
      reads this
      ensures available <= Remaining() && (available == [] ==> Remaining() == [])
    {
      if chunks == [] then [] else chunks[0]
    }

    method Consume(n: nat)
      requires Valid() && n <= |FillBuf()|
      modifies this
      ensures Valid() && old(Remaining()) == old(FillBuf())[..n] + Remaining()
      ensures |Remaining()| == |old(Remaining())| - n
    {
      hide Concat;
      if chunks != [] {
        var first, rest := chunks[0], chunks[1..];
        assert first == first[..n] + first[n..];
        Regroup(first[..n], first[n..], Concat(rest));
        ConcatCons(first[n..], rest);
        ConcatCons(first, rest);
        assert chunks == [first] + rest;
        chunks := if n == |first| then rest else [first[n..]] + rest;
        assert n == |first| ==> first[n..] == [] && [] + Concat(rest) == Concat(rest);
      } else {
        assert FillBuf()[..n] + Remaining() == Remaining();
      }
    }

    /**
     Reads one frame: exactly the first line of what remains, however it is chunked. It is
     oversize exactly when the line and its newline exceed the limit; a trailing CR is removed; without
     a newline the rest of the stream is dropped.
     */
    method ReadFrame() returns (frame: Option<Frame>, ghost line: Bytes)
      requires Valid()
      modifies this
      ensures Valid()
      ensures frame.None? <==> LF !in old(Remaining())
      ensures frame.None? ==> Remaining() == []
      ensures frame.Some? ==> LF !in line && old(Remaining()) == line + [LF] + Remaining() && frame.value == FrameOf(line)
      ensures frame.Some? ==> |Remaining()| < |old(Remaining())|
    {
      hide Concat, FrameOf;
      var bytes: Bytes := [];
      var oversize := false;
      line := [];
      while true
        invariant Valid() && LF !in line && old(Remaining()) == line + Remaining()
        invariant oversize <==> |line| > MAX_LINE_BYTES
        invariant bytes == if oversize then [] else line
        decreases |Remaining()|
      {
        var available := FillBuf();
        if available == [] {
          assert line + [] == line;
          return None, line;
        }
        var newline := IndexOfNewline(available);
        var take := if newline.Some? then newline.value + 1 else |available|;
        var contentCount := if newline.Some? then newline.value else take;
        if !oversize {
          if |bytes| + contentCount + (if newline.Some? then 1 else 0) > MAX_LINE_BYTES {
            oversize := true;
            bytes := [];
          } else {
            bytes := bytes + available[..contentCount];
          }
        }
        Consume(take);
        Regroup(line, available[..take], Remaining());
        if newline.Some? {
          assert available[..take] == available[..contentCount] + [LF];
          Regroup(line, available[..contentCount], [LF]);
          line := line + available[..contentCount];
          FrameIs(line);
          if bytes != [] && bytes[|bytes| - 1] == CR { bytes := bytes[..|bytes| - 1]; }
          return Some(if oversize then Oversize else Content(bytes)), line;
        }
        assert available[..take] == available;
        line := line + available;
      }
    }

    /** All frames of the stream, as the helper's main loop sees them when nothing closes it. */
    method ReadAll() returns (frames: seq<Frame>)
      requires Valid()
      modifies this
      ensures frames == FramesOf(Lines(old(Remaining()))) && Remaining() == []
    {
      hide Concat, SplitLines, FrameOf;
      frames := [];
      ghost var whole: Bytes := [];
      NoLines([]);
      while true
        invariant Valid() && old(Remaining()) == whole + Remaining() && Whole(whole) && frames == FramesOf(Lines(whole))
        decreases |Remaining()|
      {
        ghost var before := Remaining();
        var frame, line := ReadFrame();
        if frame.None? {
          LinesConcat(whole, before);
          NoLines(before);
          assert Lines(whole) + [] == Lines(whole);
          return;
        }
        SplitLine(whole, line);
        Regroup(whole, line, [LF]);
        Regroup(whole, line + [LF], Remaining());
        whole := whole + line + [LF];
        frames := frames + [frame.value];
        assert frames == FramesOf(Lines(whole));
      }
    }
  }

  lemma NoLines(bytes: Bytes)
    requires LF !in bytes
    ensures Lines(bytes) == []
  {
    assert [] + bytes == bytes;
    SplitPart([], bytes);
  }

  lemma {:induction false} SentLines(lines: seq<Bytes>)
    requires forall line :: line in lines ==> LF !in line
    ensures Whole(Sent(lines)) && Lines(Sent(lines)) == lines
  {
    hide SplitLines;
    if lines == [] {
      NoLines([]);
    } else {
      var n := |lines| - 1;
      SentLines(lines[..n]);
      SplitLine(Sent(lines[..n]), lines[n]);
      assert lines[..n] + [lines[n]] == lines;
    }
  }

  lemma ShortLine(line: Bytes)
    requires |line| + 1 <= MAX_LINE_BYTES && (line != [] ==> line[|line| - 1] != CR)
    ensures FrameOf(line) == Content(line)
  {
  }

  /** What was sent as lines arrives as frames: each within the limit and without a CR at its end comes back unchanged. */
  lemma SentArrives(lines: seq<Bytes>)
    requires forall line :: line in lines ==> LF !in line && |line| + 1 <= MAX_LINE_BYTES && (line != [] ==> line[|line| - 1] != CR)
    ensures |FramesOf(Lines(Sent(lines)))| == |lines|
    ensures forall i :: 0 <= i < |lines| ==> FramesOf(Lines(Sent(lines)))[i] == Content(lines[i])
  {
    SentLines(lines);
    hide Lines, Sent, FrameOf;
    var frames := FramesOf(Lines(Sent(lines)));
    forall i | 0 <= i < |lines| ensures frames[i] == Content(lines[i]) {
      assert lines[i] in lines;
      ShortLine(lines[i]);
    }
  }

  function Sent(lines: seq<Bytes>): Bytes {
    if lines == [] then [] else Sent(lines[..|lines| - 1]) + lines[|lines| - 1] + [LF]
  }

  // ---- The client's side ----

  /** The lines before the first that is too long or not accepted; and whether there is such a line. */
  function Delivered(accepts: Bytes -> bool, lines: seq<Bytes>): (seq<Bytes>, bool) {
    if lines == [] then ([], false)
    else
      var before, line := Delivered(accepts, lines[..|lines| - 1]), lines[|lines| - 1];
      if before.1 then before
      else if |line| + 1 > MAX_LINE_BYTES || !accepts(line) then (before.0, true)
      else (before.0 + [line], false)
  }

  lemma DeliveredAppend(accepts: Bytes -> bool, lines: seq<Bytes>, line: Bytes)
    ensures Delivered(accepts, lines + [line]) ==
              var before := Delivered(accepts, lines);
              if before.1 then before
              else if |line| + 1 > MAX_LINE_BYTES || !accepts(line) then (before.0, true)
              else (before.0 + [line], false)
  {
    assert (lines + [line])[..|lines|] == lines;
  }

  /** Nothing is delivered after a failure. */
  lemma {:induction false} FailureStays(accepts: Bytes -> bool, lines: seq<Bytes>, more: seq<Bytes>)
    requires Delivered(accepts, lines).1
    ensures Delivered(accepts, lines + more) == Delivered(accepts, lines)
  {
    if more == [] {
      assert lines + more == lines;
    } else {
      var n := |more| - 1;
      FailureStays(accepts, lines, more[..n]);
      assert lines + more == (lines + more[..n]) + [more[n]];
      DeliveredAppend(accepts, lines + more[..n], more[n]);
    }
  }

  class Client {
    var stdoutBuffer: Bytes
    var delivered: seq<Bytes>
    var fatal: bool
    const accepts: Bytes -> bool

    constructor (accepts: Bytes -> bool)
      ensures this.accepts == accepts && Received([])
    {
      this.accepts := accepts;
      stdoutBuffer, delivered, fatal := [], [], false;
    }

    /** The state is a function of the bytes received, whatever chunks they came in. */
    ghost predicate Received(stream: Bytes)
      reads this
    {
      var cut := Delivered(accepts, Lines(stream));
      && delivered == cut.0
      && (fatal <==> cut.1 || |Tail(stream)| >= MAX_LINE_BYTES)
      && (!fatal ==> stdoutBuffer == Tail(stream))
    }

    method AcceptStdout(chunk: Bytes, ghost stream: Bytes)
      requires Received(stream)
      modifies this
      ensures Received(stream + chunk)
    {
      hide SplitLines, Delivered;
      if fatal {
        StaysFatal(stream, chunk);
        return;
      }
      ghost var head := Complete(stream);
      CompleteSplit(stream);
      Regroup(head, stdoutBuffer, chunk);
      stdoutBuffer := stdoutBuffer + chunk;
      while true
        invariant !fatal && Whole(head) && stream + chunk == head + stdoutBuffer
        invariant Delivered(accepts, Lines(head)) == (delivered, false)
        decreases |stdoutBuffer|
      {
        var newline := IndexOfNewline(stdoutBuffer);
        if newline.None? {
          if |stdoutBuffer| >= MAX_LINE_BYTES { fatal := true; }
          TailOfWhole(head);
          SplitPart(head, stdoutBuffer);
          assert [] + stdoutBuffer == stdoutBuffer;
          return;
        }
        var line, rest := stdoutBuffer[..newline.value], stdoutBuffer[newline.value + 1..];
        CutAtNewline(stdoutBuffer, newline.value);
        SplitLine(head, line);
        DeliveredAppend(accepts, Lines(head), line);
        Regroup(head, line, [LF]);
        Regroup(head, line + [LF], rest);
        LinesConcat(head + line + [LF], rest);
        if newline.value + 1 > MAX_LINE_BYTES || !accepts(line) {
          if newline.value + 1 <= MAX_LINE_BYTES { stdoutBuffer := rest; }
          FailureStays(accepts, Lines(head + line + [LF]), Lines(rest));
          fatal := true;
          return;
        }
        delivered := delivered + [line];
        stdoutBuffer := rest;
        head := head + line + [LF];
      }
    }

    /** A fatal client ignores everything, and whatever follows it would have failed there too. */
    lemma StaysFatal(stream: Bytes, chunk: Bytes)
      requires Received(stream) && fatal
      ensures Received(stream + chunk)
    {
      var head := Complete(stream);
      CompleteSplit(stream);
      TailIsLast(stream);
      var tail := Tail(stream);
      assert stream + chunk == head + (tail + chunk);
      LinesConcat(head, tail + chunk);
      if Delivered(accepts, Lines(stream)).1 {
        FailureStays(accepts, Lines(head), Lines(tail + chunk));
      } else {
        LongTail(tail, chunk);
        if Lines(tail + chunk) != [] { TooLong(accepts, Lines(head), Lines(tail + chunk)); }
        else { assert Lines(head) + [] == Lines(head); }
      }
    }
  }

  /** Nothing from a line that is too long on is delivered. */
  lemma TooLong(accepts: Bytes -> bool, lines: seq<Bytes>, more: seq<Bytes>)
    requires !Delivered(accepts, lines).1 && more != [] && |more[0]| + 1 > MAX_LINE_BYTES
    ensures Delivered(accepts, lines + more) == (Delivered(accepts, lines).0, true)
  {
    hide Delivered;
    DeliveredAppend(accepts, lines, more[0]);
    FailureStays(accepts, lines + [more[0]], more[1..]);
    assert lines + more == (lines + [more[0]]) + more[1..];
  }

  /** A line that is already too long stays too long. */
  lemma {:induction false} LongTail(tail: Bytes, chunk: Bytes)
    requires LF !in tail
    ensures Lines(tail + chunk) == [] ==> |Tail(tail + chunk)| >= |tail|
    ensures Lines(tail + chunk) != [] ==> |Lines(tail + chunk)[0]| >= |tail|
  {
    if chunk == [] {
      assert tail + chunk == tail;
      TailIsLast(tail);
      NoLines(tail);
      assert [] + tail == tail;
      SplitPart([], tail);
    } else {
      var n := |chunk| - 1;
      assert tail + chunk == (tail + chunk[..n]) + [chunk[n]];
      LongTail(tail, chunk[..n]);
      SplitByte(tail + chunk[..n], chunk[n]);
    }
  }
}
