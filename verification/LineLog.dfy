/**
 Append-only logs of newline-terminated records, as raw bytes.

 Both the migration ledger and the job history are such logs. A process that is killed
 while appending leaves some byte prefix of its last line behind; the lemmas here say what
 can still be read from the file afterwards.
 */
module LineLog {

  datatype Option<+T> = None | Some(value: T)

  type Byte = b: int | 0 <= b < 256

  type Bytes = seq<Byte>

  const LF: Byte := 10

  lemma Regroup(a: Bytes, b: Bytes, c: Bytes)
    ensures a + (b + c) == a + b + c
  {
  }

  /** A file's complete lines, and the bytes after its last newline. */
  datatype Split = Split(lines: seq<Bytes>, tail: Bytes)

  function SplitLines(raw: Bytes): Split {
    if raw == [] then Split([], [])
    else
      var before, b := SplitLines(raw[..|raw| - 1]), raw[|raw| - 1];
      if b == LF then Split(before.lines + [before.tail], []) else Split(before.lines, before.tail + [b])
  }

  function Lines(raw: Bytes): seq<Bytes> {
    SplitLines(raw).lines
  }

  function Tail(raw: Bytes): Bytes {
    SplitLines(raw).tail
  }

  /** The file ends with a newline, or is empty. */
  predicate Whole(raw: Bytes) {
    raw == [] || raw[|raw| - 1] == LF
  }

  lemma SplitByte(raw: Bytes, b: Byte)
    ensures SplitLines(raw + [b]) ==
              if b == LF then Split(Lines(raw) + [Tail(raw)], []) else Split(Lines(raw), Tail(raw) + [b])
  {
    assert (raw + [b])[..|raw|] == raw;
  }

  lemma {:induction false} SplitPart(raw: Bytes, part: Bytes)
    requires LF !in part
    ensures SplitLines(raw + part) == Split(Lines(raw), Tail(raw) + part)
  {
    if part == [] {
      assert raw + part == raw && Tail(raw) + part == Tail(raw);
    } else {
      var n := |part| - 1;
      assert raw + part == (raw + part[..n]) + [part[n]];
      SplitPart(raw, part[..n]);
      SplitByte(raw + part[..n], part[n]);
      assert Tail(raw) + part[..n] + [part[n]] == Tail(raw) + part;
    }
  }

  lemma TailOfWhole(raw: Bytes)
    ensures Whole(raw) <==> Tail(raw) == []
  {
  }

  /** A whole line appended to a whole file. */
  lemma SplitLine(raw: Bytes, line: Bytes)
    requires Whole(raw) && LF !in line
    ensures SplitLines(raw + line + [LF]) == Split(Lines(raw) + [line], [])
    ensures Whole(raw + line + [LF])
  {
    TailOfWhole(raw);
    SplitPart(raw, line);
    SplitByte(raw + line, LF);
    assert [] + line == line;
  }

  lemma {:induction false} TailIsLast(raw: Bytes)
    ensures |Tail(raw)| <= |raw| && raw[|raw| - |Tail(raw)|..] == Tail(raw) && LF !in Tail(raw)
  {
    if raw != [] {
      var n := |raw| - 1;
      TailIsLast(raw[..n]);
      if raw[n] != LF {
        var t := |Tail(raw[..n])|;
        assert raw[n - t..] == raw[..n][n - t..] + [raw[n]];
      }
    }
  }

  /** The bytes up to and including the last newline: what survives truncating a torn tail. */
  function Complete(raw: Bytes): Bytes {
    if Whole(raw) then raw else Complete(raw[..|raw| - 1])
  }

  lemma {:induction false} CompleteSplit(raw: Bytes)
    ensures Complete(raw) + Tail(raw) == raw
    ensures Whole(Complete(raw)) && SplitLines(Complete(raw)) == Split(Lines(raw), [])
  {
    TailOfWhole(raw);
    if Whole(raw) {
      assert raw + [] == raw;
    } else {
      var n := |raw| - 1;
      CompleteSplit(raw[..n]);
      assert Complete(raw) + (Tail(raw[..n]) + [raw[n]]) == (Complete(raw) + Tail(raw[..n])) + [raw[n]];
      assert raw == raw[..n] + [raw[n]];
    }
  }

  lemma {:induction false} CompleteOfPart(raw: Bytes, part: Bytes)
    requires Whole(raw) && LF !in part
    ensures Complete(raw + part) == raw
  {
    if part == [] {
      assert raw + part == raw;
    } else {
      var n := |part| - 1;
      assert (raw + part)[..|raw| + n] == raw + part[..n];
      CompleteOfPart(raw, part[..n]);
    }
  }

  /**
   A record format: JSON text in the original, kept abstract. `valid` are the records the
   program writes.
   */
  datatype Codec<!R> = Codec(encode: R -> Bytes, decode: Bytes -> Option<R>, valid: R -> bool)

  /** What the formats have in common: a record reads back as itself and fits on one line. */
  ghost predicate Lawful<R(!new)>(codec: Codec<R>)
  {
    && codec.decode([]) == None
    && forall r {:trigger codec.encode(r)} :: codec.valid(r) ==>
         codec.decode(codec.encode(r)) == Some(r) && LF !in codec.encode(r)
  }

  /** No proper part of this record reads as a record. */
  ghost predicate Indivisible<R>(codec: Codec<R>, r: R)
  {
    forall k {:trigger codec.encode(r)[..k]} :: 0 <= k < |codec.encode(r)| ==> codec.decode(codec.encode(r)[..k]) == None
  }

  /** No proper part of any record reads as a record: a JSON object is complete only at its last brace. */
  ghost predicate SelfDelimiting<R(!new)>(codec: Codec<R>)
  {
    forall r {:trigger Indivisible(codec, r)} :: codec.valid(r) ==> Indivisible(codec, r)
  }

  ghost predicate AllValid<R(!new)>(codec: Codec<R>, records: seq<R>)
  {
    forall r :: r in records ==> codec.valid(r)
  }

  function LineOf<R>(codec: Codec<R>, record: R): Bytes
  {
    codec.encode(record) + [LF]
  }

  /** The bytes of a log holding exactly these records. */
  function LogOf<R>(codec: Codec<R>, records: seq<R>): Bytes
  {
    if records == [] then [] else LogOf(codec, records[..|records| - 1]) + LineOf(codec, records[|records| - 1])
  }

  lemma LogAppend<R>(codec: Codec<R>, records: seq<R>, record: R)
    ensures LogOf(codec, records + [record]) == LogOf(codec, records) + LineOf(codec, record)
  {
    assert (records + [record])[..|records|] == records;
  }

  /** Decoding every line; None as soon as one line is not a record. */
  function DecodeAll<R>(codec: Codec<R>, lines: seq<Bytes>): Option<seq<R>>
  {
    if lines == [] then Some([])
    else
      var front, last := DecodeAll(codec, lines[..|lines| - 1]), codec.decode(lines[|lines| - 1]);
      if front.Some? && last.Some? then Some(front.value + [last.value]) else None
  }

  /** One more readable line is one more record. */
  lemma DecodeAppend<R>(codec: Codec<R>, lines: seq<Bytes>, line: Bytes)
    ensures DecodeAll(codec, lines + [line]) ==
              var front, last := DecodeAll(codec, lines), codec.decode(line);
              if front.Some? && last.Some? then Some(front.value + [last.value]) else None
  {
    assert (lines + [line])[..|lines|] == lines;
  }

  /** A log of valid records reads back as its records. */
  lemma {:induction false} ReadBack<R(!new)>(codec: Codec<R>, records: seq<R>)
    requires Lawful(codec) && AllValid(codec, records)
    ensures Whole(LogOf(codec, records))
    ensures DecodeAll(codec, Lines(LogOf(codec, records))) == Some(records)
  {
    if records != [] {
      var n := |records| - 1;
      var front, line := LogOf(codec, records[..n]), codec.encode(records[n]);
      ReadBack(codec, records[..n]);
      assert front + line + [LF] == front + LineOf(codec, records[n]);
      SplitLine(front, line);
      DecodeAppend(codec, Lines(front), line);
      assert records[..n] + [records[n]] == records;
    }
  }

  /** `cut` bytes into the log lie `kept` whole records and `part` bytes of the next line. */
  ghost predicate CutAt<R>(codec: Codec<R>, records: seq<R>, cut: nat, kept: nat, part: nat)
  {
    && cut <= |LogOf(codec, records)|
    && kept <= |records| && cut == |LogOf(codec, records[..kept])| + part
    && (kept == |records| ==> part == 0)
    && (kept < |records| ==> part < |LineOf(codec, records[kept])|
                             && LogOf(codec, records)[..cut] == LogOf(codec, records[..kept]) + LineOf(codec, records[kept])[..part])
  }

  /**
   Every byte prefix of a log is a whole number of its records followed by a proper part of
   the next line: what is left after a crash at any byte.
   */
  lemma {:induction false} TornPrefix<R>(codec: Codec<R>, records: seq<R>, cut: nat) returns (kept: nat, part: nat)
    requires cut <= |LogOf(codec, records)|
    ensures CutAt(codec, records, cut, kept, part)
  {
    if cut == |LogOf(codec, records)| {
      kept, part := |records|, 0;
      assert records[..kept] == records;
    } else {
      var n := |records| - 1;
      var front, line := LogOf(codec, records[..n]), LineOf(codec, records[n]);
      if cut >= |front| {
        kept, part := n, cut - |front|;
        assert (front + line)[..cut] == front + line[..part];
      } else {
        kept, part := TornPrefix(codec, records[..n], cut);
        assert records[..n][..kept] == records[..kept];
        assert (front + line)[..cut] == front[..cut];
      }
    }
  }
}
