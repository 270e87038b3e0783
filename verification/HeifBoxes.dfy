/**
 Boxes, integers and cursors: the bounded reading of a HEIF file (`tools/repair_heif_integrity.py`).
 */
module HeifBoxes {
  import opened LineLog

  const MAX_METADATA := 67108864
  const MAX_BOXES := 100000

  // ---- Big-endian integers ----

  function BigEndian(b: Bytes): nat {
    if b == [] then 0 else BigEndian(b[..|b| - 1]) * 256 + b[|b| - 1]
  }

  function Encode(x: nat, n: nat): (b: Bytes)
    ensures |b| == n
  {
    if n == 0 then [] else Encode(x / 256, n - 1) + [x % 256]
  }

  function Power(n: nat): nat {
    if n == 0 then 1 else 256 * Power(n - 1)
  }

  lemma {:induction false} DecodeEncode(x: nat, n: nat)
    requires x < Power(n)
    ensures BigEndian(Encode(x, n)) == x
  {
    if n > 0 {
      DecodeEncode(x / 256, n - 1);
      assert Encode(x, n)[..n - 1] == Encode(x / 256, n - 1);
    }
  }

  lemma {:induction false} EncodeDecode(b: Bytes)
    ensures Encode(BigEndian(b), |b|) == b && BigEndian(b) < Power(|b|)
  {
    if b != [] {
      var n := |b| - 1;
      EncodeDecode(b[..n]);
      assert (BigEndian(b[..n]) * 256 + b[n]) / 256 == BigEndian(b[..n]);
      assert b == b[..n] + [b[n]];
    }
  }

  lemma EncodeInjective(x: nat, y: nat, n: nat)
    requires x < Power(n) && y < Power(n) && Encode(x, n) == Encode(y, n)
    ensures x == y
  {
    DecodeEncode(x, n);
    DecodeEncode(y, n);
  }

  // ---- Boxes ----

  datatype Box = Box(kind: Bytes, header: nat, first: nat, last: nat)

  /** The box that starts here; None where its header or size is invalid. */
  function BoxAt(file: Bytes, start: nat, end: nat): (r: Option<Box>)
    ensures r.Some? ==> r.value.header == start && start + 8 <= r.value.first <= r.value.last <= end && r.value.first <= |file|
  {
    if end < start + 8 || |file| < start + 8 then None
    else
      var short := BigEndian(file[start..start + 4]);
      var kind := file[start + 4..start + 8];
      if short == 1 then
        if |file| < start + 16 then None
        else
          var size := BigEndian(file[start + 8..start + 16]);
          if size < 16 || size > end - start then None else Some(Box(kind, start, start + 16, start + size))
      else
        var size := if short == 0 then end - start else short;
        if size < 8 || size > end - start then None else Some(Box(kind, start, start + 8, start + size))
  }

  function Prepend(done: seq<Box>, more: Option<seq<Box>>): Option<seq<Box>> {
    if more.Some? then Some(done + more.value) else None
  }

  /** The boxes of a range, after `count` others. */
  function BoxesFrom(file: Bytes, start: nat, end: nat, count: nat): Option<seq<Box>>
    decreases end - start
  {
    if start >= end then Some([])
    else if count + 1 > MAX_BOXES then None
    else
      var box := BoxAt(file, start, end);
      if box.None? then None else Prepend([box.value], BoxesFrom(file, box.value.last, end, count + 1))
  }

  function BoxesOf(file: Bytes, start: nat, end: nat): Option<seq<Box>> {
    BoxesFrom(file, start, end, 0)
  }

  /** Reads one header. */
  method NextBox(file: Bytes, at: nat, end: nat) returns (box: Option<Box>)
    requires at < end
    ensures box == BoxAt(file, at, end)
  {
    hide BigEndian;
    if end - at < 8 || |file| < at + 8 { return None; }
    var size, kind := BigEndian(file[at..at + 4]), file[at + 4..at + 8];
    var head := 8;
    if size == 1 {
      if |file| < at + 16 { return None; }
      size, head := BigEndian(file[at + 8..at + 16]), 16;
    } else if size == 0 {
      size := end - at;
    }
    box := if size < head || size > end - at then None else Some(Box(kind, at, at + head, at + size));
  }

  method Boxes(file: Bytes, start: nat, end: nat) returns (boxes: Option<seq<Box>>)
    ensures boxes == BoxesOf(file, start, end)
  {
    hide BoxAt;
    var at, count, done := start, 0, [];
    PrependNone(BoxesFrom(file, start, end, 0));
    while at < end
      invariant BoxesOf(file, start, end) == Prepend(done, BoxesFrom(file, at, end, count))
      decreases end - at
    {
      if count + 1 > MAX_BOXES { return None; }
      var box := NextBox(file, at, end);
      if box.None? { return None; }
      count := count + 1;
      PrependMore(done, box.value, BoxesFrom(file, box.value.last, end, count));
      done := done + [box.value];
      at := box.value.last;
    }
    assert done + [] == done;
    boxes := Some(done);
  }

  lemma PrependNone(more: Option<seq<Box>>)
    ensures Prepend([], more) == more
  {
    if more.Some? { assert [] + more.value == more.value; }
  }

  lemma PrependMore(done: seq<Box>, box: Box, more: Option<seq<Box>>)
    ensures Prepend(done, Prepend([box], more)) == Prepend(done + [box], more)
  {
    if more.Some? { assert done + ([box] + more.value) == done + [box] + more.value; }
  }

  /** The boxes lie end to end and cover the range exactly. */
  ghost predicate Tiles(boxes: seq<Box>, start: nat, end: nat) {
    if boxes == [] then start >= end
    else
      && start < end && boxes[0].header == start && boxes[|boxes| - 1].last == end
      && (forall i :: 0 <= i < |boxes| ==> boxes[i].header + 8 <= boxes[i].first <= boxes[i].last <= end)
      && forall i :: 0 <= i < |boxes| - 1 ==> boxes[i].last == boxes[i + 1].header
  }

  /** Whatever the bytes are, accepted boxes tile their range, each within it and at most a hundred thousand of them. */
  lemma {:induction false} BoxesTile(file: Bytes, start: nat, end: nat, count: nat)
    requires BoxesFrom(file, start, end, count).Some?
    ensures Tiles(BoxesFrom(file, start, end, count).value, start, end)
    ensures count <= MAX_BOXES ==> |BoxesFrom(file, start, end, count).value| + count <= MAX_BOXES
    decreases end - start
  {
    if start < end {
      var box := BoxAt(file, start, end).value;
      BoxesTile(file, box.last, end, count + 1);
      var rest := BoxesFrom(file, box.last, end, count + 1).value;
      assert BoxesFrom(file, start, end, count).value == [box] + rest;
    }
  }

  function Shift(boxes: seq<Box>, offset: nat): seq<Box> {
    seq(|boxes|, i requires 0 <= i < |boxes| => Box(boxes[i].kind, boxes[i].header + offset, boxes[i].first + offset, boxes[i].last + offset))
  }

  /** The boxes in a range depend only on the bytes of the range. */
  lemma {:induction false} BoxesShift(file: Bytes, base: nat, start: nat, end: nat, count: nat)
    requires base <= start && base <= end <= |file|
    ensures BoxesFrom(file, start, end, count) ==
              var inner := BoxesFrom(file[base..end], start - base, end - base, count);
              if inner.Some? then Some(Shift(inner.value, base)) else None
    decreases end - start
  {
    hide BoxAt;
    if start >= end {
      assert Shift([], base) == [];
    } else if count + 1 <= MAX_BOXES {
      BoxShift(file, base, start, end);
      var box := BoxAt(file, start, end);
      if box.Some? {
        BoxesShift(file, base, box.value.last, end, count + 1);
        var inner := BoxAt(file[base..end], start - base, end - base).value;
        var rest := BoxesFrom(file[base..end], inner.last, end - base, count + 1);
        if rest.Some? { assert Shift([inner] + rest.value, base) == [box.value] + Shift(rest.value, base); }
      }
    }
  }

  lemma BoxShift(file: Bytes, base: nat, start: nat, end: nat)
    requires base <= start && base <= end <= |file| && start < end
    ensures BoxAt(file, start, end) ==
              var inner := BoxAt(file[base..end], start - base, end - base);
              if inner.Some? then Some(Shift([inner.value], base)[0]) else None
  {
    hide BigEndian;
    if start + 8 <= end {
      SliceOfRange(file, base, end, start, start + 4);
      SliceOfRange(file, base, end, start + 4, start + 8);
      if start + 16 <= end { SliceOfRange(file, base, end, start + 8, start + 16); }
    }
  }

  lemma SliceOfRange(file: Bytes, base: nat, end: nat, a: nat, b: nat)
    requires base <= a <= b <= end <= |file|
    ensures file[base..end][a - base..b - base] == file[a..b]
  {
    var inner, outer := file[base..end][a - base..b - base], file[a..b];
    assert |inner| == |outer|;
    forall k | 0 <= k < b - a ensures inner[k] == outer[k] { }
  }

  // ---- Fields at a position ----

  predicate At(v: Bytes, p: nat, b: Bytes) {
    p + |b| <= |v| && v[p..p + |b|] == b
  }

  lemma AtJoin(v: Bytes, p: nat, a: Bytes, b: Bytes)
    ensures At(v, p, a + b) <==> At(v, p, a) && At(v, p + |a|, b)
  {
    if p + |a| + |b| <= |v| {
      var whole := v[p..p + |a| + |b|];
      assert whole == v[p..p + |a|] + v[p + |a|..p + |a| + |b|];
      assert whole[..|a|] == v[p..p + |a|] && whole[|a|..] == v[p + |a|..p + |a| + |b|];
      assert (a + b)[..|a|] == a && (a + b)[|a|..] == b;
    }
  }

  /** The integer of `n` bytes at a position; None where the data is truncated. */
  function IntAt(v: Bytes, p: nat, n: nat): Option<nat> {
    if p + n <= |v| then Some(BigEndian(v[p..p + n])) else None
  }

  /** An integer is read exactly where its bytes are. */
  lemma IntIff(v: Bytes, p: nat, n: nat, x: nat)
    ensures IntAt(v, p, n) == Some(x) <==> x < Power(n) && At(v, p, Encode(x, n))
  {
    hide BigEndian, Encode, Power;
    if p + n <= |v| { EncodeDecode(v[p..p + n]); }
    if x < Power(n) { DecodeEncode(x, n); }
  }

  /** A cursor over a structure. */
  class Reader {
    const value: Bytes
    var pos: nat

    constructor (value: Bytes)
      ensures this.value == value && pos == 0
    {
      this.value, pos := value, 0;
    }

    method Take(count: nat) returns (r: Option<Bytes>)
      modifies this
      ensures r.Some? <==> old(pos) + count <= |value|
      ensures r.Some? ==> r.value == value[old(pos)..old(pos) + count] && pos == old(pos) + count
    {
      if pos + count > |value| { return None; }
      r := Some(value[pos..pos + count]);
      pos := pos + count;
    }

    method Integer(count: nat) returns (r: Option<nat>)
      modifies this
      ensures r == IntAt(value, old(pos), count)
      ensures r.Some? ==> pos == old(pos) + count
    {
      var bytes := Take(count);
      r := if bytes.Some? then Some(BigEndian(bytes.value)) else None;
    }

    /** The text up to the next zero byte. */
    method String() returns (r: Option<Bytes>)
      requires pos <= |value|
      modifies this
      ensures r.Some? <==> ZeroFrom(value, old(pos)).Some?
      ensures r.Some? ==> var end := ZeroFrom(value, old(pos)).value; r.value == value[old(pos)..end] && pos == end + 1
    {
      var end := pos;
      while end < |value| && value[end] != 0
        invariant pos <= end <= |value| && ZeroFrom(value, pos) == ZeroFrom(value, end)
      {
        end := end + 1;
      }
      if end == |value| { return None; }
      r := Some(value[pos..end]);
      pos := end + 1;
    }
  }

  /** The position of the next zero byte. */
  function ZeroFrom(v: Bytes, p: nat): (r: Option<nat>)
    requires p <= |v|
    ensures r.Some? ==> p <= r.value < |v|
    decreases |v| - p
  {
    if p == |v| then None else if v[p] == 0 then Some(p) else ZeroFrom(v, p + 1)
  }
}
