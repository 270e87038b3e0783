/**
 What the digest's input does not show: where the boxes of the top level end and those of the meta box
 begin. A box that is moved across that border gives another accepted file with the same input.
 */
module HeifMoved {
  import opened LineLog
  import opened Ordering
  import opened HeifBoxes
  import opened HeifItems
  import opened HeifDigest

  // ---- Files written box by box ----

  /** A box with a short header, by its kind and content. */
  datatype Plain = Plain(kind: Bytes, content: Bytes)

  predicate PlainOk(b: Plain) {
    |b.kind| == 4 && 8 + |b.content| < Power(4)
  }

  function BoxBytes(b: Plain): Bytes {
    Encode(8 + |b.content|, 4) + (b.kind + b.content)
  }

  function Pack(boxes: seq<Plain>): Bytes {
    if boxes == [] then [] else Pack(boxes[..|boxes| - 1]) + BoxBytes(boxes[|boxes| - 1])
  }

  /** Where the boxes are when they are written from a position on. */
  function Placed(boxes: seq<Plain>, start: nat): (r: seq<Box>)
    ensures |r| == |boxes|
  {
    if boxes == [] then []
    else
      var n := |boxes| - 1;
      var at := start + |Pack(boxes[..n])|;
      Placed(boxes[..n], start) + [Box(boxes[n].kind, at, at + 8, at + |BoxBytes(boxes[n])|)]
  }

  lemma PackAppend(boxes: seq<Plain>, b: Plain, start: nat)
    ensures Pack(boxes + [b]) == Pack(boxes) + BoxBytes(b)
    ensures Placed(boxes + [b], start) ==
              Placed(boxes, start) + [Box(b.kind, start + |Pack(boxes)|, start + |Pack(boxes)| + 8, start + |Pack(boxes)| + |BoxBytes(b)|)]
  {
    assert (boxes + [b])[..|boxes|] == boxes;
  }

  /** Where one of the boxes is, and that its bytes are there. */
  lemma {:induction false} PlacedAt(file: Bytes, boxes: seq<Plain>, start: nat, k: nat)
    requires k < |boxes| && At(file, start, Pack(boxes))
    ensures var at := start + |Pack(boxes[..k])|;
            && Placed(boxes, start)[k] == Box(boxes[k].kind, at, at + 8, at + |BoxBytes(boxes[k])|)
            && At(file, at, BoxBytes(boxes[k])) && at + |BoxBytes(boxes[k])| <= start + |Pack(boxes)|
            && |Pack(boxes[..k + 1])| == |Pack(boxes[..k])| + |BoxBytes(boxes[k])|
  {
    hide At, BoxBytes;
    var n := |boxes| - 1;
    AtJoin(file, start, Pack(boxes[..n]), BoxBytes(boxes[n]));
    assert boxes[..|boxes|] == boxes;
    if k < n {
      PlacedAt(file, boxes[..n], start, k);
      assert boxes[..n][..k] == boxes[..k] && boxes[..n][..k + 1] == boxes[..k + 1];
    }
  }

  /** The header that was written is read. */
  lemma ReadsHeader(file: Bytes, at: nat, end: nat, b: Plain)
    requires PlainOk(b) && At(file, at, BoxBytes(b)) && at + |BoxBytes(b)| <= end
    ensures BoxAt(file, at, end) == Some(Box(b.kind, at, at + 8, at + |BoxBytes(b)|))
    ensures file[at + 8..at + |BoxBytes(b)|] == b.content && at + |BoxBytes(b)| <= |file|
    ensures |BoxBytes(b)| == 8 + |b.content|
  {
    hide BigEndian, Encode, Power;
    AtJoin(file, at, Encode(8 + |b.content|, 4), b.kind + b.content);
    AtJoin(file, at + 4, b.kind, b.content);
    DecodeEncode(8 + |b.content|, 4);
  }

  /** Boxes are read back as they were written. */
  lemma {:induction false} ReadsPacked(file: Bytes, boxes: seq<Plain>, start: nat, k: nat)
    requires k <= |boxes| <= MAX_BOXES && At(file, start, Pack(boxes)) && forall b :: b in boxes ==> PlainOk(b)
    ensures BoxesFrom(file, start + |Pack(boxes[..k])|, start + |Pack(boxes)|, k) == Some(Placed(boxes, start)[k..])
    decreases |boxes| - k
  {
    hide BoxAt, At, PlainOk, Pack, Placed;
    assert boxes[..|boxes|] == boxes;
    if k < |boxes| {
      var b := boxes[k];
      PlacedAt(file, boxes, start, k);
      ReadsHeader(file, start + |Pack(boxes[..k])|, start + |Pack(boxes)|, b);
      ReadsPacked(file, boxes, start, k + 1);
      var at, end, rest := start + |Pack(boxes[..k])|, start + |Pack(boxes)|, Placed(boxes, start)[k + 1..];
      assert Placed(boxes, start)[k..] == [Placed(boxes, start)[k]] + rest;
      assert BoxesFrom(file, at, end, k) == Prepend([BoxAt(file, at, end).value], Some(rest));
    } else {
      assert Placed(boxes, start)[k..] == [];
    }
  }

  lemma PackedBoxes(file: Bytes, boxes: seq<Plain>, start: nat)
    requires |boxes| <= MAX_BOXES && At(file, start, Pack(boxes)) && forall b :: b in boxes ==> PlainOk(b)
    ensures BoxesOf(file, start, start + |Pack(boxes)|) == Some(Placed(boxes, start))
  {
    assert boxes[..0] == [];
    ReadsPacked(file, boxes, start, 0);
  }

  /** The records of the boxes that are not skipped. */
  function PlainRecords(boxes: seq<Plain>, skipped: set<Bytes>): seq<Record> {
    if boxes == [] then []
    else
      var b := boxes[|boxes| - 1];
      PlainRecords(boxes[..|boxes| - 1], skipped) + if b.kind in skipped then [] else [Record(b.kind, b.content)]
  }

  lemma {:induction false} PackedRecords(file: Bytes, boxes: seq<Plain>, start: nat, skipped: set<Bytes>)
    requires At(file, start, Pack(boxes))
    requires forall b :: b in boxes ==> PlainOk(b) && (b.kind in skipped || |b.content| <= MAX_METADATA)
    ensures RecordsOf(file, Placed(boxes, start), skipped) == Some(PlainRecords(boxes, skipped))
  {
    hide At, PlainOk, BoxBytes, Pack, Placed;
    if boxes == [] {
      NothingPlaced(start);
    } else {
      var n := |boxes| - 1;
      var front, b := boxes[..n], boxes[n];
      assert boxes == front + [b];
      PackAppend(front, b, start);
      AtJoin(file, start, Pack(front), BoxBytes(b));
      PackedRecords(file, front, start, skipped);
      var at := start + |Pack(front)|;
      ReadsHeader(file, at, at + |BoxBytes(b)|, b);
      var box := Box(b.kind, at, at + 8, at + |BoxBytes(b)|);
      RecordsAppend(file, Placed(front, start), box, skipped);
      assert Placed(boxes, start) == Placed(front, start) + [box];
      assert PlainRecords(front, skipped) + [] == PlainRecords(front, skipped);
      assert b in boxes && (b.kind in skipped || Content(file, box) == Some(b.content));
    }
  }

  lemma NothingPlaced(start: nat)
    ensures Pack([]) == [] && Placed([], start) == []
  {
  }

  lemma RecordsAppend(file: Bytes, boxes: seq<Box>, box: Box, skipped: set<Bytes>)
    ensures RecordsOf(file, boxes + [box], skipped) ==
              var before, content := RecordsOf(file, boxes, skipped), Content(file, box);
              if before.None? || box.kind in skipped then before
              else if content.None? then None else Some(before.value + [Record(box.kind, content.value)])
  {
    assert (boxes + [box])[..|boxes|] == boxes;
  }

  lemma SelectAppend(boxes: seq<Box>, box: Box, kind: Bytes)
    ensures Select(boxes + [box], kind) == Select(boxes, kind) + if box.kind == kind then [box] else []
  {
    assert (boxes + [box])[..|boxes|] == boxes;
  }

  lemma {:induction false} SelectNone(boxes: seq<Plain>, start: nat, kind: Bytes)
    requires forall b :: b in boxes ==> b.kind != kind
    ensures Select(Placed(boxes, start), kind) == []
  {
    hide Pack, BoxBytes;
    if boxes != [] {
      var n := |boxes| - 1;
      assert boxes[n] in boxes;
      SelectNone(boxes[..n], start, kind);
      assert Placed(boxes, start)[..n] == Placed(boxes[..n], start);
    }
  }

  // ---- A family of small files ----

  const JPEG: Bytes := [106, 112, 101, 103]

  /** An item entry of version 2: item 1, not protected, of type `jpeg`, with an empty name. */
  const ENTRY: Bytes := [2, 0, 0, 0, 0, 1, 0, 0] + JPEG + [0]

  const INFO := Plain(IINF, [0, 0, 0, 0, 0, 1] + BoxBytes(Plain(INFE, ENTRY)))

  /** Item 1 is the first byte of the item data box. */
  const LAYOUT := Layout(Widths(1, 4, 4, 0, 0), [Item(1, 1, 0, [Extent(0, 1)])])

  const PLACES := Plain(ILOC, LayoutBytes(LAYOUT))

  const DATA := Plain(IDAT, [7])

  const CORE := [INFO, PLACES, DATA]

  /** A box that the digest protects wherever it is, and that is not read otherwise. */
  predicate Neutral(b: Plain) {
    && |b.kind| == 4 && |b.content| <= MAX_METADATA
    && b.kind !in {META, MDAT, FREE, SKIP, FTYP, MOOV, IINF, ILOC, IDAT}
  }

  function MetaBox(inner: seq<Plain>): Plain {
    Plain(META, [0, 0, 0, 0] + Pack(inner + CORE))
  }

  function Front(outer: seq<Plain>): seq<Plain> {
    [Plain(FTYP, [])] + outer
  }

  function TopBoxes(outer: seq<Plain>, inner: seq<Plain>): seq<Plain> {
    Front(outer) + [MetaBox(inner)]
  }

  /** A file with some boxes before its meta box, and some at the start of it. */
  function FileOf(outer: seq<Plain>, inner: seq<Plain>): Bytes {
    Pack(TopBoxes(outer, inner))
  }

  /** All boxes are neutral, and the file is not too large for short headers. */
  predicate Small(outer: seq<Plain>, inner: seq<Plain>) {
    && (forall b :: b in outer + inner ==> Neutral(b)) && |outer| + 2 <= MAX_BOXES && |inner| + 3 <= MAX_BOXES
    && 12 + |Pack(inner + CORE)| < Power(4)
  }

  lemma EntryIsImage()
    ensures EntryOf(ENTRY) == Some(Entry(1, false))
  {
    var v := ENTRY;
    SingleByte(v, 0);
    assert v[4..6] == [0, 1] && v[6..8] == [0, 0] && v[8..12] == JPEG;
    TwoBytes(0, 1);
    TwoBytes(0, 0);
    assert ZeroFrom(v, 12) == Some(12);
    assert JPEG[0] != MIME[0] && JPEG[0] != URI[0] && JPEG[0] != EXIF[0];
  }

  lemma TwoBytes(a: Byte, b: Byte)
    ensures BigEndian([a, b]) == 256 * a + b
  {
    OneDigit(a);
    assert [a, b][..1] == [a];
  }

  lemma InfoHeaderRead()
    ensures InfoCountWidth(INFO.content) == Some(2) && IntAt(INFO.content, 4, 2) == Some(1)
    ensures At(INFO.content, 6, BoxBytes(Plain(INFE, ENTRY))) && |INFO.content| == 6 + |BoxBytes(Plain(INFE, ENTRY))|
  {
    hide BoxBytes;
    var v := INFO.content;
    assert v[4..6] == [0, 1] && v[1..4] == [0, 0, 0];
    TwoBytes(0, 1);
  }

  lemma InfoEntryRead()
    ensures var v, box := INFO.content, Box(INFE, 6, 14, |INFO.content|);
            BoxesOf(v, 6, |v|) == Some([box]) && Content(v, box) == Some(ENTRY)
    ensures PlainOk(INFO)
  {
    InfoHeaderRead();
    Powers();
    hide Power, At;
    var v, b := INFO.content, Plain(INFE, ENTRY);
    assert PlainOk(b);
    assert [b][..0] == [] && Pack([b]) == BoxBytes(b);
    hide BoxBytes, Pack;
    PackedBoxes(v, [b], 6);
    PlacedAt(v, [b], 6, 0);
    ReadsHeader(v, 6, |v|, b);
    assert Placed([b], 6) == [Placed([b], 6)[0]];
  }

  lemma OneEntry(v: Bytes, box: Box)
    requires box.kind == INFE && Content(v, box) == Some(ENTRY)
    ensures EntriesOf(v, [box]) == Some(map[1 := false])
  {
    EntryIsImage();
    hide EntryOf, Content;
    assert [box][..0] == [];
  }

  lemma InfoIsOneImage()
    ensures InformationOf(INFO.content) == Some(map[1 := false]) && PlainOk(INFO)
  {
    InfoHeaderRead();
    InfoEntryRead();
    hide InfoCountWidth, IntAt, BoxesOf, Content, EntriesOf, PlainOk, BoxBytes;
    OneEntry(INFO.content, Box(INFE, 6, 14, |INFO.content|));
    var items: map<nat, bool> := map[1 := false];
    assert 1 in items && |items| == 1;
  }

  lemma Powers()
    ensures Power(0) == 1 && Power(2) == 65536 && Power(4) == 0x1_0000_0000 && Power(8) > Power(4)
  {
    assert Power(4) == 256 * (256 * Power(2));
    assert Power(8) == 256 * (256 * (256 * (256 * Power(4))));
  }

  lemma PlacesAreRead()
    ensures LocationsOf(PLACES.content) == Some(map[1 := Location(1, [Extent(0, 1)])]) && PlainOk(PLACES)
    ensures |PLACES.content| <= 100
  {
    Powers();
    hide Power, Encode;
    var items := LAYOUT.items;
    assert LayoutOk(LAYOUT);
    LocationsInvertEncoding(PLACES.content);
    assert items[..0] == [] && Resolve(items[0]).extents == [Extent(0, 1)];
  }

  // ---- The parts of such a file ----

  lemma SmallCore()
    ensures forall b :: b in CORE ==> PlainOk(b) && |b.content| <= MAX_METADATA
    ensures LayoutBytes(LAYOUT) == PLACES.content
  {
    InfoIsOneImage();
    PlacesAreRead();
    Powers();
    hide Power, LayoutBytes, InformationOf, LocationsOf;
  }

  /** The three core boxes, written from a position on. */
  function InfoBox(at: nat): Box {
    Box(IINF, at, at + 8, at + |BoxBytes(INFO)|)
  }

  function PlacesBox(at: nat): Box {
    Box(ILOC, InfoBox(at).last, InfoBox(at).last + 8, InfoBox(at).last + |BoxBytes(PLACES)|)
  }

  function DataBox(at: nat): Box {
    Box(IDAT, PlacesBox(at).last, PlacesBox(at).last + 8, PlacesBox(at).last + |BoxBytes(DATA)|)
  }

  lemma CorePlaced(inner: seq<Plain>, start: nat)
    ensures var at := start + |Pack(inner)|;
            Placed(inner + CORE, start) == Placed(inner, start) + [InfoBox(at)] + [PlacesBox(at)] + [DataBox(at)]
    ensures Pack(inner + CORE) == Pack(inner) + BoxBytes(INFO) + BoxBytes(PLACES) + BoxBytes(DATA)
  {
    hide Pack, Placed, BoxBytes, LayoutBytes;
    var one, two := inner + [INFO], inner + [INFO] + [PLACES];
    assert inner + CORE == two + [DATA];
    PackAppend(inner, INFO, start);
    PackAppend(one, PLACES, start);
    PackAppend(two, DATA, start);
  }

  lemma CoreRecords(inner: seq<Plain>)
    requires forall b :: b in inner ==> Neutral(b)
    ensures PlainRecords(inner + CORE, SKIPPED_META) == PlainRecords(inner, {}) + [Record(IINF, INFO.content)]
  {
    KindsDiffer();
    PlainSkips(inner, SKIPPED_META);
    hide PlainRecords, BoxBytes, LayoutBytes;
    var one, two := inner + [INFO], inner + [INFO] + [PLACES];
    assert inner + CORE == two + [DATA];
    PlainAppend(inner, INFO, SKIPPED_META);
    PlainAppend(one, PLACES, SKIPPED_META);
    PlainAppend(two, DATA, SKIPPED_META);
    var records := PlainRecords(inner, {}) + [Record(IINF, INFO.content)];
    assert records + [] == records;
  }

  lemma PlainAppend(boxes: seq<Plain>, b: Plain, skipped: set<Bytes>)
    ensures PlainRecords(boxes + [b], skipped) ==
              PlainRecords(boxes, skipped) + if b.kind in skipped then [] else [Record(b.kind, b.content)]
  {
    assert (boxes + [b])[..|boxes|] == boxes;
  }

  lemma {:induction false} SelectSome(boxes: seq<Plain>, start: nat, kind: Bytes, k: nat)
    requires k < |boxes| && boxes[k].kind == kind
    ensures Select(Placed(boxes, start), kind) != []
  {
    hide Pack, BoxBytes;
    var n := |boxes| - 1;
    assert Placed(boxes, start)[..n] == Placed(boxes[..n], start);
    if k < n { SelectSome(boxes[..n], start, kind, k); }
  }

  lemma CoreKinds(boxes: seq<Plain>, at: nat)
    requires forall b :: b in boxes ==> Neutral(b)
    ensures InfoBox(at).kind == IINF && PlacesBox(at).kind == ILOC && DataBox(at).kind == IDAT
    ensures IINF != ILOC && IINF != IDAT && ILOC != IDAT
    ensures forall b :: b in boxes ==> b.kind != IINF && b.kind != ILOC && b.kind != IDAT
  {
    assert IINF[1] == 105 && ILOC[1] == 108 && IDAT[1] == 100;
  }

  lemma KindsDiffer()
    ensures {IINF, ILOC, IDAT} !! {META, MDAT, FREE, SKIP, FTYP, MOOV} && FTYP !in {META, MDAT, FREE, SKIP, MOOV} && META != MOOV && META != MDAT
  {
    assert IINF[0] == 105 && ILOC[0] == 105 && IDAT[0] == 105 && IINF[1] == 105 && ILOC[1] == 108 && IDAT[1] == 100;
    assert META[0] == 109 && META[1] == 101 && MDAT[1] == 100 && MOOV[1] == 111 && FTYP[0] == 102 && FTYP[1] == 116;
    assert FREE[0] == 102 && FREE[1] == 114 && SKIP[0] == 115;
  }

  /** The boxes of the meta box, and what its structures say. */
  lemma MetaRead(file: Bytes, start: nat, inner: seq<Plain>)
    requires At(file, start, Pack(inner + CORE)) && |inner| + 3 <= MAX_BOXES && forall b :: b in inner ==> Neutral(b)
    ensures var children, data := Placed(inner + CORE, start), DataBox(start + |Pack(inner)|);
            && BoxesOf(file, start, start + |Pack(inner + CORE)|) == Some(children) && ChildrenOk(children)
            && Select(children, IDAT) == [data] && At(file, data.first, [7]) && data.last == data.first + 1
            && Content(file, Select(children, IINF)[0]) == Some(INFO.content)
            && Content(file, Select(children, ILOC)[0]) == Some(PLACES.content)
            && RecordsOf(file, children, SKIPPED_META) == Some(PlainRecords(inner, {}) + [Record(IINF, INFO.content)])
  {
    SmallCore();
    Powers();
    KindsDiffer();
    hide Power, Pack, Placed, Select, RecordsOf, PlainRecords, LayoutBytes, BoxesOf, At, BoxBytes;
    var all, children := inner + CORE, Placed(inner + CORE, start);
    assert forall b :: b in all ==> b in inner || b in CORE;
    PackedBoxes(file, all, start);
    PackedRecords(file, all, start, SKIPPED_META);
    CoreRecords(inner);
    CoreSelected(inner, start);
    CoreContents(file, start, inner);
  }

  lemma {:induction false} PlainSkips(boxes: seq<Plain>, skipped: set<Bytes>)
    requires forall b :: b in boxes ==> b.kind !in skipped
    ensures PlainRecords(boxes, skipped) == PlainRecords(boxes, {})
  {
    if boxes != [] {
      assert boxes[|boxes| - 1] in boxes;
      PlainSkips(boxes[..|boxes| - 1], skipped);
    }
  }

  lemma CoreSelected(inner: seq<Plain>, start: nat)
    requires forall b :: b in inner ==> Neutral(b)
    ensures var children, at := Placed(inner + CORE, start), start + |Pack(inner)|;
            && Select(children, IINF) == [InfoBox(at)] && Select(children, ILOC) == [PlacesBox(at)] && Select(children, IDAT) == [DataBox(at)]
  {
    hide *;
    var at := start + |Pack(inner)|;
    CoreKinds(inner, at);
    CorePlaced(inner, start);
    SelectsEach(inner, start, InfoBox(at), PlacesBox(at), DataBox(at));
  }

  lemma SelectsEach(front: seq<Plain>, start: nat, x: Box, y: Box, z: Box)
    requires x.kind != y.kind && x.kind != z.kind && y.kind != z.kind
    requires forall b :: b in front ==> b.kind != x.kind && b.kind != y.kind && b.kind != z.kind
    ensures var all := Placed(front, start) + [x] + [y] + [z];
            Select(all, x.kind) == [x] && Select(all, y.kind) == [y] && Select(all, z.kind) == [z]
  {
    hide Placed, Select;
    SelectsOf(front, start, x, y, z, x.kind);
    SelectsOf(front, start, x, y, z, y.kind);
    SelectsOf(front, start, x, y, z, z.kind);
  }

  lemma SelectsOf(front: seq<Plain>, start: nat, x: Box, y: Box, z: Box, kind: Bytes)
    requires forall b :: b in front ==> b.kind != kind
    ensures Select(Placed(front, start) + [x] + [y] + [z], kind) ==
              (if x.kind == kind then [x] else []) + (if y.kind == kind then [y] else []) + (if z.kind == kind then [z] else [])
  {
    hide Placed, Select;
    var placed := Placed(front, start);
    SelectNone(front, start, kind);
    SelectAppend(placed, x, kind);
    SelectAppend(placed + [x], y, kind);
    SelectAppend(placed + [x] + [y], z, kind);
  }

  lemma CoreContents(file: Bytes, start: nat, inner: seq<Plain>)
    requires At(file, start, Pack(inner + CORE))
    ensures var at := start + |Pack(inner)|;
            && Content(file, InfoBox(at)) == Some(INFO.content) && Content(file, PlacesBox(at)) == Some(PLACES.content)
            && At(file, DataBox(at).first, [7]) && DataBox(at).last == DataBox(at).first + 1
  {
    SmallCore();
    hide Power, Pack, Placed, LayoutBytes, At, BoxBytes;
    CorePlaced(inner, start);
    var a := start + |Pack(inner)|;
    var b := a + |BoxBytes(INFO)|;
    var c := b + |BoxBytes(PLACES)|;
    AtJoin(file, start, Pack(inner) + BoxBytes(INFO) + BoxBytes(PLACES), BoxBytes(DATA));
    AtJoin(file, start, Pack(inner) + BoxBytes(INFO), BoxBytes(PLACES));
    AtJoin(file, start, Pack(inner), BoxBytes(INFO));
    ReadsHeader(file, a, b, INFO);
    ReadsHeader(file, b, c, PLACES);
    ReadsHeader(file, c, c + |BoxBytes(DATA)|, DATA);
    SliceAt(file, c + 8, [7]);
  }

  lemma SliceAt(file: Bytes, p: nat, b: Bytes)
    requires p + |b| <= |file| && file[p..p + |b|] == b
    ensures At(file, p, b)
  {
  }

  function MetaStart(outer: seq<Plain>): nat {
    |Pack(Front(outer))|
  }

  function PlacedMeta(outer: seq<Plain>, meta: Plain): Box {
    Box(META, MetaStart(outer), MetaStart(outer) + 8, MetaStart(outer) + |BoxBytes(meta)|)
  }

  lemma FrontKinds(outer: seq<Plain>, meta: Plain)
    requires meta.kind == META && forall b :: b in outer ==> Neutral(b)
    ensures forall b :: b in Front(outer) ==> b.kind != META && b.kind != MDAT && b.kind != MOOV
    ensures |Front(outer)| > 0 && Front(outer)[0].kind == FTYP
    ensures PlacedMeta(outer, meta).kind == META && META != MDAT && META != MOOV
  {
    KindsDiffer();
  }

  lemma FrontPlaced(outer: seq<Plain>, meta: Plain)
    requires meta.kind == META
    ensures Placed(Front(outer) + [meta], 0) == Placed(Front(outer), 0) + [PlacedMeta(outer, meta)]
    ensures Pack(Front(outer) + [meta]) == Pack(Front(outer)) + BoxBytes(meta)
  {
    hide Pack, Placed, BoxBytes;
    PackAppend(Front(outer), meta, 0);
  }

  lemma SelectsLast(front: seq<Plain>, x: Box, kind: Bytes)
    requires forall b :: b in front ==> b.kind != kind
    ensures Select(Placed(front, 0) + [x], kind) == if x.kind == kind then [x] else []
  {
    hide Placed, Select;
    SelectNone(front, 0, kind);
    SelectAppend(Placed(front, 0), x, kind);
  }

  lemma ShapeOk(top: seq<Box>, meta: Box)
    requires Select(top, META) == [meta] && Select(top, FTYP) != [] && Select(top, MOOV) == []
    ensures TopOk(top)
  {
    hide Select;
  }

  lemma TopSelected(outer: seq<Plain>, meta: Plain)
    requires meta.kind == META && forall b :: b in outer ==> Neutral(b)
    ensures var top := Placed(Front(outer) + [meta], 0);
            TopOk(top) && Select(top, META) == [PlacedMeta(outer, meta)] && Select(top, MDAT) == []
  {
    hide *;
    var front, box := Front(outer), PlacedMeta(outer, meta);
    FrontKinds(outer, meta);
    FrontPlaced(outer, meta);
    SelectsLast(front, box, META);
    SelectsLast(front, box, MDAT);
    SelectsLast(front, box, MOOV);
    SelectSome(front, 0, FTYP, 0);
    SelectAppend(Placed(front, 0), box, FTYP);
    ShapeOk(Placed(front, 0) + [box], box);
  }

  lemma TopRecords(outer: seq<Plain>, meta: Plain)
    requires meta.kind == META && forall b :: b in outer ==> Neutral(b)
    ensures PlainRecords(Front(outer) + [meta], SKIPPED_TOP) == [Record(FTYP, [])] + PlainRecords(outer, {})
  {
    KindsDiffer();
    var first := Plain(FTYP, []);
    PlainAppend([first] + outer, meta, SKIPPED_TOP);
    PlainSkips(outer, SKIPPED_TOP);
    PlainJoin([first], outer, SKIPPED_TOP);
    PlainAppend([], first, SKIPPED_TOP);
    assert [] + [first] == [first];
    hide PlainRecords;
    var records := [Record(FTYP, [])] + PlainRecords(outer, {});
    assert records + [] == records && [] + [Record(FTYP, [])] == [Record(FTYP, [])];
  }

  lemma {:induction false} PlainJoin(a: seq<Plain>, b: seq<Plain>, skipped: set<Bytes>)
    ensures PlainRecords(a + b, skipped) == PlainRecords(a, skipped) + PlainRecords(b, skipped)
  {
    if b == [] {
      assert a + b == a;
    } else {
      var n := |b| - 1;
      assert a + b == (a + b[..n]) + [b[n]];
      PlainJoin(a, b[..n], skipped);
      PlainAppend(a + b[..n], b[n], skipped);
    }
  }

  lemma NeutralOk(boxes: seq<Plain>)
    requires forall b :: b in boxes ==> Neutral(b)
    ensures forall b :: b in boxes ==> PlainOk(b) && |b.content| <= MAX_METADATA
  {
    Powers();
  }

  lemma TopBoxesOk(outer: seq<Plain>, inner: seq<Plain>)
    requires Small(outer, inner)
    ensures |TopBoxes(outer, inner)| <= MAX_BOXES && MetaBox(inner).kind == META && PlainOk(MetaBox(inner))
    ensures forall b :: b in TopBoxes(outer, inner) ==> PlainOk(b) && (b.kind in SKIPPED_TOP || |b.content| <= MAX_METADATA)
    ensures (forall b :: b in outer ==> Neutral(b)) && forall b :: b in inner ==> Neutral(b)
  {
    assert forall b :: (b in outer ==> b in outer + inner) && (b in inner ==> b in outer + inner);
    NeutralOk(outer);
    Powers();
    hide Power, Pack, Neutral;
    var meta := MetaBox(inner);
    assert PlainOk(meta) && PlainOk(Plain(FTYP, []));
    assert forall b :: b in TopBoxes(outer, inner) ==> b in outer || b == meta || b == Plain(FTYP, []);
  }

  lemma FileEnds(outer: seq<Plain>, inner: seq<Plain>)
    ensures TopBoxes(outer, inner) == Front(outer) + [MetaBox(inner)] && FileOf(outer, inner) == Pack(TopBoxes(outer, inner))
    ensures PlacedMeta(outer, MetaBox(inner)).last == |FileOf(outer, inner)|
  {
    hide Pack, BoxBytes;
    FrontPlaced(outer, MetaBox(inner));
  }

  /** The top level of such a file. */
  lemma TopRead(outer: seq<Plain>, inner: seq<Plain>)
    requires Small(outer, inner)
    ensures var file, meta := FileOf(outer, inner), PlacedMeta(outer, MetaBox(inner));
            && meta.last == |file|
            && var top := BoxesOf(file, 0, |file|);
               && top.Some? && TopOk(top.value) && Select(top.value, META) == [meta] && Select(top.value, MDAT) == []
               && RecordsOf(file, top.value, SKIPPED_TOP) == Some([Record(FTYP, [])] + PlainRecords(outer, {}))
  {
    hide *;
    var file, boxes, meta := FileOf(outer, inner), TopBoxes(outer, inner), MetaBox(inner);
    FileEnds(outer, inner);
    TopBoxesOk(outer, inner);
    FrontPlaced(outer, meta);
    WholeAt(file, file);
    PackedBoxes(file, boxes, 0);
    TopSelected(outer, meta);
    PackedRecords(file, boxes, 0, SKIPPED_TOP);
    TopRecords(outer, meta);
  }

  /** The content of its meta box. */
  lemma MetaIsThere(outer: seq<Plain>, inner: seq<Plain>)
    requires Small(outer, inner)
    ensures var file, meta := FileOf(outer, inner), PlacedMeta(outer, MetaBox(inner));
            && At(file, meta.first, [0, 0, 0, 0]) && At(file, meta.first + 4, Pack(inner + CORE))
            && meta.last == meta.first + 4 + |Pack(inner + CORE)|
  {
    hide *;
    var file, meta, at := FileOf(outer, inner), MetaBox(inner), MetaStart(outer);
    TopBoxesOk(outer, inner);
    FrontPlaced(outer, meta);
    FileEnds(outer, inner);
    MetaContent(outer, inner);
    WholeAt(file, file);
    AtJoin(file, 0, Pack(Front(outer)), BoxBytes(meta));
    ReadsHeader(file, at, |file|, meta);
    SliceAt(file, at + 8, meta.content);
    AtJoin(file, at + 8, [0, 0, 0, 0], Pack(inner + CORE));
  }

  lemma MetaContent(outer: seq<Plain>, inner: seq<Plain>)
    ensures MetaBox(inner).content == [0, 0, 0, 0] + Pack(inner + CORE)
    ensures MetaStart(outer) == |Pack(Front(outer))| && PlacedMeta(outer, MetaBox(inner)).first == MetaStart(outer) + 8
  {
    hide Pack;
  }

  function PartsFor(outer: seq<Plain>, inner: seq<Plain>): Parts {
    Parts([Record(FTYP, [])] + PlainRecords(outer, {}), PlainRecords(inner, {}) + [Record(IINF, INFO.content)],
          map[1 := false], map[1 := Location(1, [Extent(0, 1)])], [DataBox(MetaStart(outer) + 12 + |Pack(inner)|)], [])
  }

  lemma FileParts(outer: seq<Plain>, inner: seq<Plain>)
    requires Small(outer, inner)
    ensures PartsOf(FileOf(outer, inner)) == Some(PartsFor(outer, inner))
    ensures var data := PartsFor(outer, inner).idat[0];
            At(FileOf(outer, inner), data.first, [7]) && data.last == data.first + 1
  {
    hide Pack, Placed, Select, RecordsOf, PlainRecords, BoxBytes, BoxesOf, At, InformationOf, LocationsOf, FileOf, LayoutBytes, Content;
    var file, start := FileOf(outer, inner), MetaStart(outer) + 12;
    TopRead(outer, inner);
    MetaIsThere(outer, inner);
    TopBoxesOk(outer, inner);
    MetaRead(file, start, inner);
    InfoIsOneImage();
    PlacesAreRead();
  }

  // ---- What the digest does not show ----

  lemma OrderOfOne(p: Parts)
    requires p.info.Keys == {1}
    ensures Ordered(p) == [1]
  {
    NatsOrdered(p.info.Keys);
    AscendingUnique(NatLess, Ordered(p), [1]);
  }

  lemma OneImage(file: Bytes, p: Parts)
    requires p.info == map[1 := false] && p.locations == map[1 := Location(1, [Extent(0, 1)])]
    requires |p.idat| == 1 && At(file, p.idat[0].first, [7]) && p.idat[0].last == p.idat[0].first + 1
    ensures ImageRecords(file, p, [1]) == Some([Record(Encode(1, 4), [7])])
  {
    Powers();
    hide Power, Encode;
    var first, extents := p.idat[0].first, [Extent(0, 1)];
    assert InSome(p.idat, first, 1);
    assert extents[..0] == [] && [] + file[first..first + 1] == [7];
    assert ExtentData(file, p.idat, first, extents) == Some([7]);
    assert [1][..0] == [];
    assert ItemData(file, p, 1) == Some([7]);
    var record := Record(Encode(1, 4), [7]);
    assert [] + [record] == [record];
  }

  lemma PayloadFrom(file: Bytes, p: Parts, images: seq<Record>)
    requires PartsOf(file) == Some(p) && p.info.Keys == p.locations.Keys
    requires ImageRecords(file, p, Ordered(p)) == Some(images) && images != []
    ensures Payload(file) == Some(p.top + p.meta + images)
  {
    hide PartsOf, ImageRecords, Ascend;
  }

  lemma PartsShape(outer: seq<Plain>, inner: seq<Plain>)
    ensures var p := PartsFor(outer, inner);
            && p.info == map[1 := false] && p.locations == map[1 := Location(1, [Extent(0, 1)])] && |p.idat| == 1
            && p.top == [Record(FTYP, [])] + PlainRecords(outer, {}) && p.meta == PlainRecords(inner, {}) + [Record(IINF, INFO.content)]
            && |p.top| == 1 + |outer|
  {
    hide PlainRecords, DataBox, BoxBytes;
    AllKept(outer);
  }

  /** The records of such a file: those of the outer boxes, then those of the inner ones. */
  function RecordsFor(boxes: seq<Plain>): seq<Record> {
    [Record(FTYP, [])] + PlainRecords(boxes, {}) + [Record(IINF, INFO.content)] + [Record(Encode(1, 4), [7])]
  }

  lemma RecordsJoin(outer: seq<Plain>, inner: seq<Plain>)
    ensures [Record(FTYP, [])] + PlainRecords(outer, {}) + (PlainRecords(inner, {}) + [Record(IINF, INFO.content)]) + [Record(Encode(1, 4), [7])]
            == RecordsFor(outer + inner)
  {
    PlainJoin(outer, inner, {});
    hide PlainRecords, Encode, BoxBytes;
  }

  lemma FilePayload(outer: seq<Plain>, inner: seq<Plain>)
    requires Small(outer, inner)
    ensures PartsOf(FileOf(outer, inner)).Some? && |PartsOf(FileOf(outer, inner)).value.top| == 1 + |outer|
    ensures Payload(FileOf(outer, inner)) == Some(RecordsFor(outer + inner))
  {
    hide *;
    var file, p := FileOf(outer, inner), PartsFor(outer, inner);
    FileParts(outer, inner);
    PartsShape(outer, inner);
    OrderOfOne(p);
    OneImage(file, p);
    PayloadFrom(file, p, [Record(Encode(1, 4), [7])]);
    RecordsJoin(outer, inner);
  }

  /**
   Moving boxes from the end of the top level to the start of the meta box gives a file that is accepted
   too and has the same digest input, although the two agree on their protected boxes only when
   nothing was moved.
   */
  lemma MovedBoxesDoNotShow(outer: seq<Plain>, moved: seq<Plain>, inner: seq<Plain>)
    requires Small(outer + moved, inner) && Small(outer, moved + inner)
    ensures var f, g := FileOf(outer + moved, inner), FileOf(outer, moved + inner);
            && Payload(f).Some? && Payload(g).Some? && StreamOf(Payload(f).value) == StreamOf(Payload(g).value)
            && (SamePicture(f, g) <==> moved == [])
  {
    hide *;
    FilePayload(outer + moved, inner);
    FilePayload(outer, moved + inner);
    assert outer + moved + inner == outer + (moved + inner);
    StreamDeterminesPicture(FileOf(outer + moved, inner), FileOf(outer, moved + inner));
  }

  lemma {:induction false} AllKept(boxes: seq<Plain>)
    ensures |PlainRecords(boxes, {})| == |boxes|
  {
    if boxes != [] { AllKept(boxes[..|boxes| - 1]); }
  }

  /** Two accepted files, of six boxes each, with the same digest input and different protected boxes. */
  lemma EqualDigestInputs() returns (f: Bytes, g: Bytes)
    ensures Payload(f).Some? && Payload(g).Some? && StreamOf(Payload(f).value) == StreamOf(Payload(g).value)
    ensures !SamePicture(f, g)
  {
    var b := Plain([97, 98, 99, 100], []);
    f, g := FileOf([b], []), FileOf([], [b]);
    OneSmallBox(b);
    assert [] + [b] == [b] && [b] + [] == [b];
    MovedBoxesDoNotShow([], [b], []);
  }

  lemma OneSmallBox(b: Plain)
    requires b == Plain([97, 98, 99, 100], [])
    ensures Small([b], []) && Small([], [b])
  {
    Powers();
    PlacesAreRead();
    hide Power, LayoutBytes, LocationsOf;
    assert Neutral(b) by { assert b.kind[0] == 97; }
    CorePlaced([], 0);
    CorePlaced([b], 0);
    assert [b][..0] == [];
  }
}
