/**
 The bytes of a HEIF file that its integrity digest is taken over: every protected box and the
 bytes of every image item, however the items are placed. The hash itself is kept abstract.
 */
module HeifDigest {
  import opened LineLog
  import opened Ordering
  import opened HeifBoxes
  import opened HeifItems

  // ---- What the digest is taken over ----

  /** A piece of the digest's input: a tag, a length and the data. */
  datatype Record = Record(tag: Bytes, data: Bytes)

  function RecordBytes(r: Record): Bytes {
    r.tag + (Encode(|r.data|, 8) + r.data)
  }

  function StreamOf(records: seq<Record>): Bytes {
    if records == [] then [] else RecordBytes(records[0]) + StreamOf(records[1..])
  }

  lemma {:induction false} StreamAppend(a: seq<Record>, b: seq<Record>)
    ensures StreamOf(a + b) == StreamOf(a) + StreamOf(b)
  {
    if a == [] {
      assert a + b == b;
      assert [] + StreamOf(b) == StreamOf(b);
    } else {
      StreamAppend(a[1..], b);
      assert (a + b)[1..] == a[1..] + b;
      Regroup(RecordBytes(a[0]), StreamOf(a[1..]), StreamOf(b));
    }
  }

  predicate RecordOk(r: Record) {
    |r.tag| == 4 && |r.data| < Power(8)
  }

  /** Equal streams come from equal records: nothing can move from one record into another unnoticed. */
  lemma {:induction false} StreamInjective(a: seq<Record>, b: seq<Record>)
    requires StreamOf(a) == StreamOf(b)
    requires (forall r :: r in a ==> RecordOk(r)) && forall r :: r in b ==> RecordOk(r)
    ensures a == b
  {
    if a == [] {
      if b != [] { StreamNotEmpty(b); }
    } else if b == [] {
      StreamNotEmpty(a);
    } else {
      assert a[0] in a && b[0] in b;
      FirstRecord(a[0], StreamOf(a[1..]), b[0], StreamOf(b[1..]));
      StreamInjective(a[1..], b[1..]);
      assert a == [a[0]] + a[1..] && b == [b[0]] + b[1..];
    }
  }

  lemma StreamNotEmpty(a: seq<Record>)
    requires a != [] && RecordOk(a[0])
    ensures StreamOf(a) != []
  {
  }

  lemma FirstRecord(a: Record, x: Bytes, b: Record, y: Bytes)
    requires RecordOk(a) && RecordOk(b) && RecordBytes(a) + x == RecordBytes(b) + y
    ensures a == b && x == y
  {
    hide Power;
    var v := RecordBytes(a) + x;
    assert v[..4] == a.tag && v[..4] == b.tag;
    assert v[4..12] == Encode(|a.data|, 8) && v[4..12] == Encode(|b.data|, 8);
    EncodeInjective(|a.data|, |b.data|, 8);
    assert v[12..12 + |a.data|] == a.data && v[12..12 + |b.data|] == b.data;
    assert v[12 + |a.data|..] == x && v[12 + |b.data|..] == y;
  }

  /** The boxes that are protected as they are, with their content. */
  function RecordsOf(file: Bytes, boxes: seq<Box>, skipped: set<Bytes>): Option<seq<Record>> {
    if boxes == [] then Some([])
    else
      var before, box := RecordsOf(file, boxes[..|boxes| - 1], skipped), boxes[|boxes| - 1];
      if before.None? then None
      else if box.kind in skipped then before
      else
        var content := Content(file, box);
        if content.None? then None else Some(before.value + [Record(box.kind, content.value)])
  }

  function Select(boxes: seq<Box>, kind: Bytes): seq<Box> {
    if boxes == [] then []
    else Select(boxes[..|boxes| - 1], kind) + if boxes[|boxes| - 1].kind == kind then [boxes[|boxes| - 1]] else []
  }

  /** The parts of a file of the supported shape. */
  datatype Parts = Parts(top: seq<Record>, meta: seq<Record>, info: map<nat, bool>, locations: map<nat, Location>,
                         idat: seq<Box>, media: seq<Box>)

  predicate TopOk(top: seq<Box>) {
    |Select(top, META)| == 1 && |Select(top, FTYP)| > 0 && |Select(top, MOOV)| == 0
  }

  predicate ChildrenOk(children: seq<Box>) {
    |Select(children, IINF)| == 1 && |Select(children, ILOC)| == 1 && |Select(children, IDAT)| <= 1
  }

  const SKIPPED_TOP: set<Bytes> := {META, MDAT, FREE, SKIP}
  const SKIPPED_META: set<Bytes> := {ILOC, IDAT, FREE, SKIP}

  function PartsOf(file: Bytes): Option<Parts> {
    var top := BoxesOf(file, 0, |file|);
    if top.None? || !TopOk(top.value) then None
    else
      var meta := Select(top.value, META)[0];
      var children := BoxesOf(file, meta.first + 4, meta.last);
      if !At(file, meta.first, [0, 0, 0, 0]) || children.None? || !ChildrenOk(children.value) then None
      else
        var topRecords, metaRecords := RecordsOf(file, top.value, SKIPPED_TOP), RecordsOf(file, children.value, SKIPPED_META);
        var iinf, iloc := Content(file, Select(children.value, IINF)[0]), Content(file, Select(children.value, ILOC)[0]);
        if topRecords.None? || metaRecords.None? || iinf.None? || iloc.None? then None
        else
          var info, locations := InformationOf(iinf.value), LocationsOf(iloc.value);
          if info.None? || locations.None? || info.value.Keys != locations.value.Keys then None
          else Some(Parts(topRecords.value, metaRecords.value, info.value, locations.value,
                          Select(children.value, IDAT), Select(top.value, MDAT)))
  }

  predicate InSome(ranges: seq<Box>, offset: nat, length: nat) {
    exists i :: 0 <= i < |ranges| && ranges[i].first <= offset && offset + length <= ranges[i].last
  }

  /** The bytes of the extents, one after the other; None where one is outside the data boxes. */
  function ExtentData(file: Bytes, ranges: seq<Box>, base: nat, extents: seq<Extent>): Option<Bytes> {
    if extents == [] then Some([])
    else
      var before, e := ExtentData(file, ranges, base, extents[..|extents| - 1]), extents[|extents| - 1];
      if before.None? || !InSome(ranges, base + e.offset, e.length) || base + e.offset + e.length > |file| then None
      else Some(before.value + file[base + e.offset..base + e.offset + e.length])
  }

  function ItemData(file: Bytes, p: Parts, ident: nat): Option<Bytes>
    requires ident in p.locations
  {
    var location := p.locations[ident];
    if location.construction != 1 then ExtentData(file, p.media, 0, location.extents)
    else if p.idat == [] then None
    else ExtentData(file, p.idat, p.idat[0].first, location.extents)
  }

  /** The image items in the given order, each with its bytes; every item must be in its data boxes. */
  function ImageRecords(file: Bytes, p: Parts, order: seq<nat>): Option<seq<Record>>
    requires forall ident :: ident in order ==> ident in p.info && ident in p.locations
  {
    if order == [] then Some([])
    else
      var before, ident := ImageRecords(file, p, order[..|order| - 1]), order[|order| - 1];
      var data := ItemData(file, p, ident);
      if before.None? || data.None? then None
      else if p.info[ident] then before
      else if ident >= Power(4) || |data.value| >= Power(8) then None
      else Some(before.value + [Record(Encode(ident, 4), data.value)])
  }

  predicate NatLess(a: nat, b: nat) {
    a < b
  }

  lemma NatsOrdered(s: set<nat>)
    ensures StrictOrder(NatLess) && TotalOn(NatLess, s)
  {
  }

  ghost function Ordered(p: Parts): (order: seq<nat>)
    ensures forall ident :: ident in order ==> ident in p.info
  {
    NatsOrdered(p.info.Keys);
    var order := Ascend(NatLess, p.info.Keys);
    assert forall ident :: ident in order ==> ident in ToSet(order);
    order
  }

  lemma PartsKeys(file: Bytes)
    ensures PartsOf(file).Some? ==> PartsOf(file).value.info.Keys == PartsOf(file).value.locations.Keys
  {
  }

  /** The records the digest is taken over; None where the file is refused. */
  ghost function Payload(file: Bytes): Option<seq<Record>> {
    var p := PartsOf(file);
    if p.None? then None
    else
      PartsKeys(file);
      var images := ImageRecords(file, p.value, Ordered(p.value));
      if images.None? || images.value == [] then None else Some(p.value.top + p.value.meta + images.value)
  }

  // ---- The main results ----

  lemma {:induction false} RecordsOk(file: Bytes, boxes: seq<Box>, skipped: set<Bytes>)
    requires RecordsOf(file, boxes, skipped).Some? && forall b :: b in boxes ==> |b.kind| == 4
    ensures forall r :: r in RecordsOf(file, boxes, skipped).value ==> |r.tag| == 4 && |r.data| <= MAX_METADATA
  {
    if boxes != [] {
      var n := |boxes| - 1;
      assert boxes[n] in boxes;
      RecordsOk(file, boxes[..n], skipped);
    }
  }

  lemma {:induction false} ImagesOk(file: Bytes, p: Parts, order: seq<nat>)
    requires forall ident :: ident in order ==> ident in p.info && ident in p.locations
    requires ImageRecords(file, p, order).Some?
    ensures forall r :: r in ImageRecords(file, p, order).value ==> RecordOk(r)
  {
    hide Power, ItemData;
    if order != [] { ImagesOk(file, p, order[..|order| - 1]); }
  }

  lemma {:induction false} KindsOk(file: Bytes, start: nat, end: nat, count: nat)
    requires BoxesFrom(file, start, end, count).Some?
    ensures forall b :: b in BoxesFrom(file, start, end, count).value ==> |b.kind| == 4
    decreases end - start
  {
    if start < end { KindsOk(file, BoxAt(file, start, end).value.last, end, count + 1); }
  }

  lemma Power8()
    ensures Power(8) > MAX_METADATA
  {
    assert Power(4) == 256 * (256 * (256 * (256 * Power(0))));
    assert Power(8) == 256 * (256 * (256 * (256 * Power(4))));
  }

  lemma PayloadOk(file: Bytes)
    requires Payload(file).Some?
    ensures forall r :: r in Payload(file).value ==> RecordOk(r)
  {
    hide InformationOf, LocationsOf, Power, BoxesFrom, RecordsOf, ImageRecords, At;
    var p := PartsOf(file).value;
    PartsKeys(file);
    var top := BoxesOf(file, 0, |file|).value;
    var meta := Select(top, META)[0];
    KindsOk(file, 0, |file|, 0);
    KindsOk(file, meta.first + 4, meta.last, 0);
    RecordsOk(file, top, SKIPPED_TOP);
    RecordsOk(file, BoxesOf(file, meta.first + 4, meta.last).value, SKIPPED_META);
    ImagesOk(file, p, Ordered(p));
    Power8();
  }

  /** Two accepted files with the same stream have the same records. */
  lemma StreamDeterminesPayload(f: Bytes, g: Bytes)
    ensures Payload(f).Some? && Payload(g).Some? && StreamOf(Payload(f).value) == StreamOf(Payload(g).value) ==>
              Payload(f) == Payload(g)
  {
    hide Payload;
    if Payload(f).Some? && Payload(g).Some? && StreamOf(Payload(f).value) == StreamOf(Payload(g).value) {
      PayloadOk(f);
      PayloadOk(g);
      StreamInjective(Payload(f).value, Payload(g).value);
    }
  }

  function FindData(records: seq<Record>, tag: Bytes): Option<Bytes> {
    if records == [] then None
    else if records[|records| - 1].tag == tag then Some(records[|records| - 1].data)
    else FindData(records[..|records| - 1], tag)
  }

  /** A box that is protected and occurs once is found among the records. */
  lemma {:induction false} FindsRecord(file: Bytes, boxes: seq<Box>, skipped: set<Bytes>, kind: Bytes)
    requires RecordsOf(file, boxes, skipped).Some? && kind !in skipped && |Select(boxes, kind)| <= 1
    ensures FindData(RecordsOf(file, boxes, skipped).value, kind) ==
              if Select(boxes, kind) == [] then None else Content(file, Select(boxes, kind)[0])
  {
    if boxes != [] {
      var n := |boxes| - 1;
      FindsRecord(file, boxes[..n], skipped, kind);
      if boxes[n].kind !in skipped {
        var before := RecordsOf(file, boxes[..n], skipped).value;
        var all := RecordsOf(file, boxes, skipped).value;
        assert all[..|all| - 1] == before;
      }
    }
  }

  /** The items, and which of them are metadata, are part of what is protected. */
  lemma InfoIsProtected(file: Bytes)
    requires PartsOf(file).Some?
    ensures var p := PartsOf(file).value;
            FindData(p.meta, IINF).Some? && Some(p.info) == InformationOf(FindData(p.meta, IINF).value)
  {
    hide InformationOf, LocationsOf, BoxesFrom, At;
    var meta := Select(BoxesOf(file, 0, |file|).value, META)[0];
    FindsRecord(file, BoxesOf(file, meta.first + 4, meta.last).value, SKIPPED_META, IINF);
  }

  /** Every image item has the same bytes in both files. */
  ghost predicate SameImages(f: Bytes, p: Parts, g: Bytes, q: Parts)
    requires p.info.Keys == p.locations.Keys == q.locations.Keys
  {
    forall ident :: ident in p.info && !p.info[ident] ==> ItemData(f, p, ident) == ItemData(g, q, ident)
  }

  lemma {:induction false} SameImageRecords(f: Bytes, p: Parts, g: Bytes, q: Parts, order: seq<nat>)
    requires p.info.Keys == p.locations.Keys == q.locations.Keys && p.info == q.info && SameImages(f, p, g, q)
    requires forall ident :: ident in order ==> ident in p.info
    requires ImageRecords(f, p, order).Some? && ImageRecords(g, q, order).Some?
    ensures ImageRecords(f, p, order) == ImageRecords(g, q, order)
  {
    hide ItemData, Power;
    if order != [] {
      var n := |order| - 1;
      SameImageRecords(f, p, g, q, order[..n]);
      assert order[n] in order;
    }
  }

  /**
   Placement does not matter: two accepted files with the same protected boxes and the same
   bytes for every image item have the same records, so the same digest, wherever their
   items lie and however they are split into extents, and whatever their metadata items hold.
   */
  lemma PlacementIsIrrelevant(f: Bytes, g: Bytes)
    ensures Payload(f).Some? && Payload(g).Some? && SamePicture(f, g) ==> Payload(f) == Payload(g)
  {
    hide PartsOf, InformationOf, ImageRecords, SameImages;
    if Payload(f).Some? && Payload(g).Some? && SamePicture(f, g) {
      var p, q := PartsOf(f).value, PartsOf(g).value;
      InfoIsProtected(f);
      InfoIsProtected(g);
      assert p.info == q.info;
      PartsKeys(f);
      PartsKeys(g);
      SameImageRecords(f, p, g, q, Ordered(p));
    }
  }

  /** The files agree on their protected boxes and on the bytes of every image item. */
  ghost predicate SamePicture(f: Bytes, g: Bytes) {
    var p, q := PartsOf(f), PartsOf(g);
    && p.Some? && q.Some? && p.value.top == q.value.top && p.value.meta == q.value.meta
    && p.value.info.Keys == p.value.locations.Keys == q.value.locations.Keys && SameImages(f, p.value, g, q.value)
  }

  /** How many items are images. */
  function ImagesIn(info: map<nat, bool>, order: seq<nat>): nat {
    if order == [] then 0
    else ImagesIn(info, order[..|order| - 1]) + if order[|order| - 1] in info && !info[order[|order| - 1]] then 1 else 0
  }

  lemma {:induction false} CountsImages(file: Bytes, p: Parts, order: seq<nat>)
    requires forall ident :: ident in order ==> ident in p.info && ident in p.locations
    requires ImageRecords(file, p, order).Some?
    ensures |ImageRecords(file, p, order).value| == ImagesIn(p.info, order)
  {
    hide ItemData, Power, Encode;
    if order != [] { CountsImages(file, p, order[..|order| - 1]); }
  }

  /** Equal image records hold the same bytes for every image item. */
  lemma {:induction false} EqualImageRecords(f: Bytes, p: Parts, g: Bytes, q: Parts, order: seq<nat>)
    requires p.info.Keys == p.locations.Keys == q.locations.Keys && p.info == q.info
    requires forall ident :: ident in order ==> ident in p.info
    requires ImageRecords(f, p, order).Some? && ImageRecords(f, p, order) == ImageRecords(g, q, order)
    ensures forall ident :: ident in order && !p.info[ident] ==> ItemData(f, p, ident) == ItemData(g, q, ident)
  {
    hide ItemData, Power, Encode;
    if order != [] {
      var n, all := |order| - 1, ImageRecords(f, p, order).value;
      assert !p.info[order[n]] ==> ImageRecords(f, p, order[..n]).value == all[..|all| - 1] == ImageRecords(g, q, order[..n]).value;
      EqualImageRecords(f, p, g, q, order[..n]);
      assert order == order[..n] + [order[n]];
    }
  }

  function Tagged(records: seq<Record>, tag: Bytes): nat {
    if records == [] then 0 else Tagged(records[..|records| - 1], tag) + if records[|records| - 1].tag == tag then 1 else 0
  }

  lemma {:induction false} TaggedOnce(file: Bytes, boxes: seq<Box>, skipped: set<Bytes>, kind: Bytes)
    requires RecordsOf(file, boxes, skipped).Some? && kind !in skipped
    ensures Tagged(RecordsOf(file, boxes, skipped).value, kind) == |Select(boxes, kind)|
  {
    if boxes != [] {
      var n := |boxes| - 1;
      TaggedOnce(file, boxes[..n], skipped, kind);
      var before, all := RecordsOf(file, boxes[..n], skipped).value, RecordsOf(file, boxes, skipped).value;
      if boxes[n].kind !in skipped { assert all[..|all| - 1] == before; }
    }
  }

  /** A record that occurs once is the same in every beginning that has it. */
  lemma {:induction false} FoundInPrefix(records: seq<Record>, n: nat, tag: Bytes)
    requires n <= |records| && Tagged(records, tag) <= 1 && FindData(records[..n], tag).Some?
    ensures FindData(records, tag) == FindData(records[..n], tag) && Tagged(records, tag) == 1
  {
    if n < |records| {
      var m := |records| - 1;
      assert records[..m][..n] == records[..n];
      FoundInPrefix(records[..m], n, tag);
    } else {
      assert records[..n] == records;
      FoundIsTagged(records, tag);
    }
  }

  lemma {:induction false} FoundIsTagged(records: seq<Record>, tag: Bytes)
    requires FindData(records, tag).Some?
    ensures Tagged(records, tag) >= 1
  {
    if records[|records| - 1].tag != tag { FoundIsTagged(records[..|records| - 1], tag); }
  }

  lemma InfoTaggedOnce(file: Bytes)
    requires PartsOf(file).Some?
    ensures Tagged(PartsOf(file).value.meta, IINF) == 1
  {
    hide InformationOf, LocationsOf, BoxesFrom, At;
    var meta := Select(BoxesOf(file, 0, |file|).value, META)[0];
    TaggedOnce(file, BoxesOf(file, meta.first + 4, meta.last).value, SKIPPED_META, IINF);
  }

  /** Behind equal top-level boxes, the item information says where the image items begin. */
  lemma MetaEnds(f: Bytes, g: Bytes)
    requires Payload(f).Some? && Payload(f) == Payload(g) && PartsOf(f).value.top == PartsOf(g).value.top
    requires |PartsOf(f).value.meta| <= |PartsOf(g).value.meta|
    ensures PartsOf(f).value.meta == PartsOf(g).value.meta && PartsOf(f).value.info == PartsOf(g).value.info
  {
    hide PartsOf, InformationOf, ImageRecords, Ascend;
    var p, q, n := PartsOf(f).value, PartsOf(g).value, |PartsOf(f).value.meta|;
    PartsKeys(f);
    PartsKeys(g);
    var rest := Payload(f).value[|p.top|..];
    assert rest == p.meta + ImageRecords(f, p, Ordered(p)).value && rest == q.meta + ImageRecords(g, q, Ordered(q)).value;
    assert p.meta == rest[..n] == q.meta[..n];
    InfoIsProtected(f);
    InfoIsProtected(g);
    InfoTaggedOnce(g);
    FoundInPrefix(q.meta, n, IINF);
    assert p.info == q.info;
    CountsImages(f, p, Ordered(p));
    CountsImages(g, q, Ordered(q));
    assert q.meta[..n] == q.meta;
  }

  /**
   What an equal digest input says of two accepted files: they agree on all protected boxes and on the
   bytes of every image item exactly when as many protected boxes are outside the meta box
   in both. A box moved from the end of the one list to the start of the other does not show.
   */
  lemma StreamDeterminesPicture(f: Bytes, g: Bytes)
    ensures Payload(f).Some? && Payload(g).Some? ==>
              (SamePicture(f, g) <==> StreamOf(Payload(f).value) == StreamOf(Payload(g).value)
                                      && |PartsOf(f).value.top| == |PartsOf(g).value.top|)
  {
    hide Payload, PartsOf, StreamOf, SameImages;
    PlacementIsIrrelevant(f, g);
    StreamDeterminesPayload(f, g);
    if Payload(f).Some? && Payload(f) == Payload(g) { EqualTops(f, g); }
  }

  lemma EqualTops(f: Bytes, g: Bytes)
    requires Payload(f).Some? && Payload(f) == Payload(g)
    ensures PartsOf(f).Some? && PartsOf(g).Some?
    ensures |PartsOf(f).value.top| == |PartsOf(g).value.top| ==> SamePicture(f, g)
  {
    hide PartsOf, InformationOf, ImageRecords, Ascend;
    var p, q := PartsOf(f).value, PartsOf(g).value;
    if |p.top| == |q.top| {
      PartsKeys(f);
      PartsKeys(g);
      assert p.top == Payload(f).value[..|p.top|] == q.top;
      if |p.meta| <= |q.meta| { MetaEnds(f, g); } else { MetaEnds(g, f); }
      var order, n := Ordered(p), |p.top + p.meta|;
      assert ImageRecords(f, p, order).value == Payload(f).value[n..] == ImageRecords(g, q, order).value;
      EqualImageRecords(f, p, g, q, order);
      OrderHasAll(p);
    }
  }

  lemma OrderHasAll(p: Parts)
    ensures forall ident :: ident in p.info ==> ident in Ordered(p)
  {
    NatsOrdered(p.info.Keys);
    forall ident | ident in p.info ensures ident in Ordered(p) { assert ident in ToSet(Ascend(NatLess, p.info.Keys)); }
  }

  // ---- The computation ----

  /** Updates the digest with every protected box. */
  method FeedBoxes(file: Bytes, boxes: seq<Box>, skipped: set<Bytes>, digest: Bytes) returns (ok: bool, fed: Bytes)
    ensures ok <==> RecordsOf(file, boxes, skipped).Some?
    ensures ok ==> fed == digest + StreamOf(RecordsOf(file, boxes, skipped).value)
  {
    hide Content, RecordBytes, StreamOf;
    fed := digest;
    ghost var records: seq<Record> := [];
    NoStream(digest);
    assert boxes[..0] == [];
    for k := 0 to |boxes|
      invariant RecordsOf(file, boxes[..k], skipped) == Some(records) && fed == digest + StreamOf(records)
    {
      var box := boxes[k];
      assert boxes[..k + 1][..k] == boxes[..k];
      if box.kind !in skipped {
        var content := Content(file, box);
        if content.None? {
          RecordsFail(file, boxes, skipped, k + 1);
          return false, fed;
        }
        FeedRecord(digest, records, Record(box.kind, content.value));
        fed := fed + RecordBytes(Record(box.kind, content.value));
        records := records + [Record(box.kind, content.value)];
      }
    }
    assert boxes[..|boxes|] == boxes;
    ok := true;
  }

  lemma NoStream(digest: Bytes)
    ensures digest + StreamOf([]) == digest
  {
  }

  lemma FeedRecord(digest: Bytes, records: seq<Record>, r: Record)
    ensures digest + StreamOf(records) + RecordBytes(r) == digest + StreamOf(records + [r])
  {
    StreamAppend(records, [r]);
    assert StreamOf([r]) == RecordBytes(r) + StreamOf([]) == RecordBytes(r);
    Regroup(digest, StreamOf(records), RecordBytes(r));
  }

  lemma {:induction false} RecordsFail(file: Bytes, boxes: seq<Box>, skipped: set<Bytes>, k: nat)
    requires k <= |boxes| && RecordsOf(file, boxes[..k], skipped).None?
    ensures RecordsOf(file, boxes, skipped).None?
  {
    if k < |boxes| {
      assert boxes[..|boxes| - 1][..k] == boxes[..k];
      RecordsFail(file, boxes[..|boxes| - 1], skipped, k);
    } else {
      assert boxes[..k] == boxes;
    }
  }

  /** Finds where the extents are, refusing any that is outside the data boxes; and adds up their lengths. */
  method ResolveExtents(file: Bytes, ranges: seq<Box>, base: nat, extents: seq<Extent>) returns (resolved: Option<seq<Extent>>, total: nat)
    requires forall i :: 0 <= i < |ranges| ==> ranges[i].last <= |file|
    ensures resolved.Some? <==> ExtentData(file, ranges, base, extents).Some?
    ensures resolved.Some? ==> && DataOf(file, resolved.value) == ExtentData(file, ranges, base, extents)
                               && total == |ExtentData(file, ranges, base, extents).value|
  {
    var found: seq<Extent> := [];
    total := 0;
    assert extents[..0] == [];
    for k := 0 to |extents|
      invariant ExtentData(file, ranges, base, extents[..k]).Some?
      invariant DataOf(file, found) == ExtentData(file, ranges, base, extents[..k])
      invariant total == |ExtentData(file, ranges, base, extents[..k]).value|
    {
      var absolute, length := base + extents[k].offset, extents[k].length;
      assert extents[..k + 1][..k] == extents[..k];
      if !InSome(ranges, absolute, length) {
        ExtentsFail(file, ranges, base, extents, k + 1);
        return None, total;
      }
      assert (found + [Extent(absolute, length)])[..|found|] == found;
      found := found + [Extent(absolute, length)];
      total := total + length;
    }
    assert extents[..|extents|] == extents;
    resolved := Some(found);
  }

  /** The bytes at resolved positions. */
  function DataOf(file: Bytes, resolved: seq<Extent>): Option<Bytes> {
    if resolved == [] then Some([])
    else
      var before, e := DataOf(file, resolved[..|resolved| - 1]), resolved[|resolved| - 1];
      if before.None? || e.offset + e.length > |file| then None
      else Some(before.value + file[e.offset..e.offset + e.length])
  }

  lemma {:induction false} ExtentsFail(file: Bytes, ranges: seq<Box>, base: nat, extents: seq<Extent>, k: nat)
    requires k <= |extents| && ExtentData(file, ranges, base, extents[..k]).None?
    ensures ExtentData(file, ranges, base, extents).None?
  {
    if k < |extents| {
      assert extents[..|extents| - 1][..k] == extents[..k];
      ExtentsFail(file, ranges, base, extents[..|extents| - 1], k);
    } else {
      assert extents[..k] == extents;
    }
  }

  const BLOCK := 1048576

  /** Updates the digest with one extent, a block at a time. */
  method FeedExtent(file: Bytes, offset: nat, length: nat, digest: Bytes) returns (fed: Bytes)
    requires offset + length <= |file|
    ensures fed == digest + file[offset..offset + length]
  {
    fed := digest;
    var left := length;
    assert digest == digest + file[offset..offset];
    while left > 0
      invariant 0 <= left <= length && fed == digest + file[offset..offset + (length - left)]
    {
      var n, at := if left < BLOCK then left else BLOCK, offset + (length - left);
      SliceJoin(file, offset, at, at + n);
      Regroup(digest, file[offset..at], file[at..at + n]);
      fed := fed + file[at..at + n];
      left := left - n;
    }
  }

  lemma SliceJoin(file: Bytes, a: nat, b: nat, c: nat)
    requires a <= b <= c <= |file|
    ensures file[a..c] == file[a..b] + file[b..c]
  {
  }

  method FeedExtents(file: Bytes, resolved: seq<Extent>, digest: Bytes) returns (fed: Bytes)
    requires DataOf(file, resolved).Some?
    ensures fed == digest + DataOf(file, resolved).value
  {
    fed := digest;
    assert resolved[..0] == [] && digest + [] == digest;
    for k := 0 to |resolved|
      invariant DataOf(file, resolved[..k]).Some? && fed == digest + DataOf(file, resolved[..k]).value
    {
      assert resolved[..k + 1][..k] == resolved[..k];
      DataPrefix(file, resolved, k + 1);
      var e := resolved[k];
      Regroup(digest, DataOf(file, resolved[..k]).value, file[e.offset..e.offset + e.length]);
      fed := FeedExtent(file, e.offset, e.length, fed);
    }
    assert resolved[..|resolved|] == resolved;
  }

  lemma {:induction false} DataPrefix(file: Bytes, resolved: seq<Extent>, k: nat)
    requires k <= |resolved| && DataOf(file, resolved).Some?
    ensures DataOf(file, resolved[..k]).Some?
  {
    if k < |resolved| {
      assert resolved[..|resolved| - 1][..k] == resolved[..k];
      DataPrefix(file, resolved[..|resolved| - 1], k);
    } else {
      assert resolved[..k] == resolved;
    }
  }

  /** The data boxes lie in the file. */
  predicate RangesOk(file: Bytes, p: Parts) {
    && (forall i :: 0 <= i < |p.media| ==> p.media[i].last <= |file|)
    && (forall i :: 0 <= i < |p.idat| ==> p.idat[i].last <= |file|)
  }

  /** One item: checked always, fed to the digest when it is an image. */
  method FeedItem(file: Bytes, p: Parts, ident: nat, digest: Bytes) returns (ok: bool, fed: Bytes, ghost record: seq<Record>)
    requires ident in p.info && ident in p.locations && RangesOk(file, p)
    ensures ok <==> ItemData(file, p, ident).Some? && (p.info[ident] || (ident < Power(4) && |ItemData(file, p, ident).value| < Power(8)))
    ensures ok ==> record == (if p.info[ident] then [] else [Record(Encode(ident, 4), ItemData(file, p, ident).value)])
    ensures ok ==> fed == if p.info[ident] then digest else digest + RecordBytes(Record(Encode(ident, 4), ItemData(file, p, ident).value))
  {
    hide Power, Encode, ExtentData, DataOf;
    record, fed := [], digest;
    var location := p.locations[ident];
    if location.construction == 1 && p.idat == [] { return false, fed, record; }
    var resolved, total;
    if location.construction == 1 {
      resolved, total := ResolveExtents(file, p.idat, p.idat[0].first, location.extents);
    } else {
      resolved, total := ResolveExtents(file, p.media, 0, location.extents);
    }
    if resolved.None? { return false, fed, record; }
    if p.info[ident] { return true, fed, record; }
    if ident >= Power(4) || total >= Power(8) { return false, fed, record; }
    var header := Encode(ident, 4) + Encode(total, 8);
    ghost var data := ItemData(file, p, ident).value;
    Regroup(Encode(ident, 4), Encode(total, 8), data);
    Regroup(digest, header, data);
    fed := FeedExtents(file, resolved.value, digest + header);
    record := [Record(Encode(ident, 4), data)];
    ok := true;
  }

  lemma {:induction false} ImagesFail(file: Bytes, p: Parts, order: seq<nat>, k: nat)
    requires forall ident :: ident in order ==> ident in p.info && ident in p.locations
    requires k <= |order| && ImageRecords(file, p, order[..k]).None?
    ensures ImageRecords(file, p, order).None?
  {
    if k < |order| {
      assert order[..|order| - 1][..k] == order[..k];
      ImagesFail(file, p, order[..|order| - 1], k);
    } else {
      assert order[..k] == order;
    }
  }

  /** The items in the order of their idents. */
  method FeedItems(file: Bytes, p: Parts, order: seq<nat>, digest: Bytes) returns (ok: bool, images: nat, fed: Bytes)
    requires RangesOk(file, p) && forall ident :: ident in order ==> ident in p.info && ident in p.locations
    ensures ok <==> ImageRecords(file, p, order).Some?
    ensures ok ==> images == |ImageRecords(file, p, order).value| && fed == digest + StreamOf(ImageRecords(file, p, order).value)
  {
    hide ItemData, RangesOk, Power, RecordBytes, StreamOf;
    fed, images := digest, 0;
    ghost var records: seq<Record> := [];
    NoStream(digest);
    assert order[..0] == [];
    for k := 0 to |order|
      invariant ImageRecords(file, p, order[..k]) == Some(records) && fed == digest + StreamOf(records) && images == |records|
    {
      assert order[..k + 1][..k] == order[..k] && order[k] in order;
      ghost var record;
      ghost var before := fed;
      ok, fed, record := FeedItem(file, p, order[k], fed);
      if !ok {
        ImagesFail(file, p, order, k + 1);
        return;
      }
      if !p.info[order[k]] {
        images := images + 1;
        FeedRecord(digest, records, record[0]);
      }
      assert records + [] == records;
      records := records + record;
    }
    assert order[..|order|] == order;
    ok := true;
  }

  lemma {:induction false} SelectIn(boxes: seq<Box>, kind: Bytes)
    ensures forall b :: b in Select(boxes, kind) ==> b in boxes
  {
    if boxes != [] {
      SelectIn(boxes[..|boxes| - 1], kind);
      assert boxes == boxes[..|boxes| - 1] + [boxes[|boxes| - 1]];
    }
  }

  /** A selected box lies in the range it was found in. */
  lemma SelectedInside(file: Bytes, start: nat, end: nat, boxes: seq<Box>, kind: Bytes, i: nat)
    requires BoxesOf(file, start, end) == Some(boxes) && i < |Select(boxes, kind)|
    ensures Select(boxes, kind)[i].first <= Select(boxes, kind)[i].last <= end
  {
    BoxesInside(file, start, end);
    SelectIn(boxes, kind);
    assert Select(boxes, kind)[i] in boxes;
  }

  /** Top-level boxes: the shape of the file, and the protected ones into the digest. */
  method ReadTop(file: Bytes) returns (top: Option<seq<Box>>, digest: Bytes)
    ensures top.Some? <==> BoxesOf(file, 0, |file|).Some? && TopOk(BoxesOf(file, 0, |file|).value)
                           && RecordsOf(file, BoxesOf(file, 0, |file|).value, SKIPPED_TOP).Some?
    ensures top.Some? ==> top == BoxesOf(file, 0, |file|) && digest == StreamOf(RecordsOf(file, top.value, SKIPPED_TOP).value)
  {
    digest := [];
    top := Boxes(file, 0, |file|);
    if top.None? || !TopOk(top.value) { return None, digest; }
    var ok;
    ok, digest := FeedBoxes(file, top.value, SKIPPED_TOP, []);
    if !ok { return None, digest; }
    assert [] + StreamOf(RecordsOf(file, top.value, SKIPPED_TOP).value) == StreamOf(RecordsOf(file, top.value, SKIPPED_TOP).value);
  }

  /** The parts of the file, and the digest of its protected boxes. */
  method ReadParts(file: Bytes) returns (parts: Option<Parts>, digest: Bytes)
    ensures parts == PartsOf(file)
    ensures parts.Some? ==> RangesOk(file, parts.value) && digest == StreamOf(parts.value.top + parts.value.meta)
  {
    hide InformationOf, LocationsOf, BoxesFrom, RecordsOf, StreamOf, Select;
    var top;
    top, digest := ReadTop(file);
    if top.None? { return None, digest; }
    var meta := Select(top.value, META)[0];
    if !At(file, meta.first, [0, 0, 0, 0]) { return None, digest; }
    var children := Boxes(file, meta.first + 4, meta.last);
    if children.None? || !ChildrenOk(children.value) { return None, digest; }
    ghost var protectedTop := RecordsOf(file, top.value, SKIPPED_TOP).value;
    var ok;
    ok, digest := FeedBoxes(file, children.value, SKIPPED_META, digest);
    if !ok { return None, digest; }
    StreamAppend(protectedTop, RecordsOf(file, children.value, SKIPPED_META).value);
    var iinf, iloc := Select(children.value, IINF)[0], Select(children.value, ILOC)[0];
    var infoContent, locationContent := Content(file, iinf), Content(file, iloc);
    if infoContent.None? || locationContent.None? { return None, digest; }
    var info := ItemInformation(file, iinf.first, iinf.last);
    if info.None? { return None, digest; }
    var locations := Locations(locationContent.value);
    if locations.None? || info.value.Keys != locations.value.Keys { return None, digest; }
    parts := Some(Parts(RecordsOf(file, top.value, SKIPPED_TOP).value, RecordsOf(file, children.value, SKIPPED_META).value,
                        info.value, locations.value, Select(children.value, IDAT), Select(top.value, MDAT)));
    PartsInside(file);
  }

  /** The data boxes of an accepted file lie in the file. */
  lemma PartsInside(file: Bytes)
    requires PartsOf(file).Some?
    ensures RangesOk(file, PartsOf(file).value)
  {
    hide InformationOf, LocationsOf, BoxesFrom, RecordsOf, At, Content, Select;
    var top := BoxesOf(file, 0, |file|).value;
    SelectedInside(file, 0, |file|, top, META, 0);
    var meta := Select(top, META)[0];
    var children := BoxesOf(file, meta.first + 4, meta.last).value;
    forall i | 0 <= i < |Select(top, MDAT)| ensures Select(top, MDAT)[i].last <= |file| {
      SelectedInside(file, 0, |file|, top, MDAT, i);
    }
    forall i | 0 <= i < |Select(children, IDAT)| ensures Select(children, IDAT)[i].last <= |file| {
      SelectedInside(file, meta.first + 4, meta.last, children, IDAT, i);
    }
  }

  /** The digest's input for a file; None where the file is refused. */
  method HeifPayloadDigest(file: Bytes) returns (stream: Option<Bytes>)
    ensures stream == if Payload(file).Some? then Some(StreamOf(Payload(file).value)) else None
  {
    hide PartsOf, ImageRecords, StreamOf;
    var parts, digest := ReadParts(file);
    if parts.None? { return None; }
    PartsKeys(file);
    NatsOrdered(parts.value.info.Keys);
    var order := Sort(NatLess, parts.value.info.Keys);
    AscendingUnique(NatLess, order, Ascend(NatLess, parts.value.info.Keys));
    var ok, images, fed := FeedItems(file, parts.value, order, digest);
    if !ok || images == 0 { return None; }
    StreamAppend(parts.value.top + parts.value.meta, ImageRecords(file, parts.value, order).value);
    stream := Some(fed);
  }
}
