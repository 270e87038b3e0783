/**
 The item structures of a HEIF file: where each item's bytes are, and which items are metadata.
 */
module HeifItems {
  import opened LineLog
  import opened HeifBoxes

  // ---- Item locations ----

  datatype Extent = Extent(offset: nat, length: nat)

  datatype Item = Item(ident: nat, construction: nat, base: nat, extents: seq<Extent>)

  datatype Widths = Widths(version: nat, offset: nat, length: nat, base: nat, index: nat) {
    function Ident(): nat {
      if version < 2 then 2 else 4
    }

    function Construction(): nat {
      if version > 0 then 2 else 0
    }

    function Index(): nat {
      if version > 0 then index else 0
    }
  }

  /** An item location box as it is written (section 8.11.3 of ISO/IEC 14496-12), in the subset that is accepted. */
  datatype Layout = Layout(widths: Widths, items: seq<Item>)

  datatype Parsed<T> = Parsed(value: T, next: nat)

  datatype Location = Location(construction: nat, extents: seq<Extent>)

  predicate Width(n: nat) {
    n == 0 || n == 4 || n == 8
  }

  predicate WidthsOk(w: Widths) {
    w.version <= 2 && Width(w.offset) && Width(w.length) && Width(w.base) && Width(w.index) && (w.version == 0 ==> w.index == 0)
  }

  predicate ExtentOk(e: Extent, w: Widths) {
    e.offset < Power(w.offset) && 0 < e.length < Power(w.length)
  }

  predicate ItemOk(item: Item, w: Widths) {
    && item.ident < Power(w.Ident()) && item.construction < 2 && item.construction < Power(w.Construction())
    && item.base < Power(w.base) && 0 < |item.extents| < Power(2)
    && forall i :: 0 <= i < |item.extents| ==> ExtentOk(item.extents[i], w)
  }

  predicate ItemsOk(items: seq<Item>, w: Widths) {
    && (forall i :: 0 <= i < |items| ==> ItemOk(items[i], w))
    && forall i, j :: 0 <= i < j < |items| ==> items[i].ident != items[j].ident
  }

  predicate LayoutOk(l: Layout) {
    WidthsOk(l.widths) && |l.items| <= MAX_BOXES && |l.items| < Power(l.widths.Ident()) && ItemsOk(l.items, l.widths)
  }

  function ExtentBytes(e: Extent, w: Widths): Bytes {
    Encode(0, w.Index()) + (Encode(e.offset, w.offset) + Encode(e.length, w.length))
  }

  function ExtentsBytes(es: seq<Extent>, w: Widths): Bytes {
    if es == [] then [] else ExtentsBytes(es[..|es| - 1], w) + ExtentBytes(es[|es| - 1], w)
  }

  function ItemBytes(item: Item, w: Widths): Bytes {
    Encode(item.ident, w.Ident()) + (Encode(item.construction, w.Construction()) + (Encode(0, 2) + (Encode(item.base, w.base)
    + (Encode(|item.extents|, 2) + ExtentsBytes(item.extents, w)))))
  }

  function ItemsBytes(items: seq<Item>, w: Widths): Bytes {
    if items == [] then [] else ItemsBytes(items[..|items| - 1], w) + ItemBytes(items[|items| - 1], w)
  }

  function Nibbles(high: nat, low: nat): Bytes {
    Encode(high * 16 + low, 1)
  }

  /** The bytes of the box. */
  function LayoutBytes(l: Layout): Bytes {
    var w := l.widths;
    Encode(w.version, 1) + ([0, 0, 0] + (Nibbles(w.offset, w.length) + (Nibbles(w.base, w.index)
    + (Encode(|l.items|, w.Ident()) + ItemsBytes(l.items, w)))))
  }

  /** What the box says: for each item its construction method and its resolved extents. */
  function Resolve(item: Item): Location {
    Location(item.construction,
             seq(|item.extents|, i requires 0 <= i < |item.extents| => Extent(item.base + item.extents[i].offset, item.extents[i].length)))
  }

  function ResolveAll(items: seq<Item>): map<nat, Location> {
    if items == [] then map[] else ResolveAll(items[..|items| - 1])[items[|items| - 1].ident := Resolve(items[|items| - 1])]
  }

  // ---- Reading them ----

  function ParseExtent(v: Bytes, p: nat, w: Widths): Option<Parsed<Extent>> {
    var index, offset := IntAt(v, p, w.Index()), IntAt(v, p + w.Index(), w.offset);
    var length := IntAt(v, p + w.Index() + w.offset, w.length);
    if index != Some(0) || offset.None? || length.None? || length.value == 0 then None
    else Some(Parsed(Extent(offset.value, length.value), p + w.Index() + w.offset + w.length))
  }

  function ParseExtents(v: Bytes, p: nat, w: Widths, n: nat): Option<Parsed<seq<Extent>>> {
    if n == 0 then Some(Parsed([], p))
    else
      var before := ParseExtents(v, p, w, n - 1);
      if before.None? then None
      else
        var e := ParseExtent(v, before.value.next, w);
        if e.None? then None else Some(Parsed(before.value.value + [e.value.value], e.value.next))
  }

  function ParseItem(v: Bytes, p: nat, w: Widths): Option<Parsed<Item>> {
    var q := p + w.Ident() + w.Construction();
    var ident, construction := IntAt(v, p, w.Ident()), IntAt(v, p + w.Ident(), w.Construction());
    var reference, base, count := IntAt(v, q, 2), IntAt(v, q + 2, w.base), IntAt(v, q + 2 + w.base, 2);
    if ident.None? || construction.None? || reference != Some(0) || base.None? || count.None? then None
    else if construction.value > 1 || count.value == 0 then None
    else
      var extents := ParseExtents(v, q + 4 + w.base, w, count.value);
      if extents.None? then None
      else Some(Parsed(Item(ident.value, construction.value, base.value, extents.value.value), extents.value.next))
  }

  predicate HasIdent(items: seq<Item>, ident: nat) {
    exists i :: 0 <= i < |items| && items[i].ident == ident
  }

  function ParseItems(v: Bytes, p: nat, w: Widths, n: nat): Option<Parsed<seq<Item>>> {
    if n == 0 then Some(Parsed([], p))
    else
      var before := ParseItems(v, p, w, n - 1);
      if before.None? then None
      else
        var item := ParseItem(v, before.value.next, w);
        if item.None? || HasIdent(before.value.value, item.value.value.ident) then None
        else Some(Parsed(before.value.value + [item.value.value], item.value.next))
  }

  function ParseWidths(v: Bytes): Option<Widths> {
    if |v| < 6 || v[1..4] != [0, 0, 0] then None
    else
      var w := Widths(v[0], v[4] / 16, v[4] % 16, v[5] / 16, v[5] % 16);
      if WidthsOk(w) then Some(w) else None
  }

  function ParseLayout(v: Bytes): Option<Layout> {
    var w := ParseWidths(v);
    if w.None? then None
    else
      var count := IntAt(v, 6, w.value.Ident());
      if count.None? || count.value > MAX_BOXES then None
      else
        var items := ParseItems(v, 6 + w.value.Ident(), w.value, count.value);
        if items.None? || items.value.next != |v| then None else Some(Layout(w.value, items.value.value))
  }

  lemma ParseExtentIff(v: Bytes, p: nat, w: Widths, e: Extent, next: nat)
    ensures ParseExtent(v, p, w) == Some(Parsed(e, next)) <==>
              ExtentOk(e, w) && At(v, p, ExtentBytes(e, w)) && next == p + |ExtentBytes(e, w)|
  {
    hide At, IntAt, Encode;
    IntIff(v, p, w.Index(), 0);
    PowerPositive(w.Index());
    IntIff(v, p + w.Index(), w.offset, e.offset);
    IntIff(v, p + w.Index() + w.offset, w.length, e.length);
    AtJoin(v, p, Encode(0, w.Index()), Encode(e.offset, w.offset) + Encode(e.length, w.length));
    AtJoin(v, p + w.Index(), Encode(e.offset, w.offset), Encode(e.length, w.length));
  }

  lemma {:induction false} PowerPositive(n: nat)
    ensures Power(n) > 0
  {
    if n > 0 { PowerPositive(n - 1); }
  }

  lemma {:induction false} ParseExtentsIff(v: Bytes, p: nat, w: Widths, es: seq<Extent>, next: nat)
    requires p <= |v|
    ensures ParseExtents(v, p, w, |es|) == Some(Parsed(es, next)) <==>
              (forall i :: 0 <= i < |es| ==> ExtentOk(es[i], w)) && At(v, p, ExtentsBytes(es, w)) && next == p + |ExtentsBytes(es, w)|
  {
    hide ParseExtent, ExtentBytes, ExtentOk;
    if es != [] {
      var n := |es| - 1;
      var front := ExtentsBytes(es[..n], w);
      ParseExtentsIff(v, p, w, es[..n], p + |front|);
      ParseExtentIff(v, p + |front|, w, es[n], next);
      AtJoin(v, p, front, ExtentBytes(es[n], w));
      assert es == es[..n] + [es[n]];
      var before := ParseExtents(v, p, w, n);
      if before.Some? && ParseExtents(v, p, w, |es|) == Some(Parsed(es, next)) {
        assert before.value.value == es[..n];
        ParseExtentsIff(v, p, w, es[..n], before.value.next);
      }
    }
  }

  lemma {:induction false} ParseExtentsLength(v: Bytes, p: nat, w: Widths, n: nat)
    requires p <= |v| && ParseExtents(v, p, w, n).Some?
    ensures |ParseExtents(v, p, w, n).value.value| == n && ParseExtents(v, p, w, n).value.next <= |v|
  {
    if n > 0 { ParseExtentsLength(v, p, w, n - 1); }
  }

  lemma ParseItemIff(v: Bytes, p: nat, w: Widths, item: Item, next: nat)
    requires p <= |v|
    ensures ParseItem(v, p, w) == Some(Parsed(item, next)) <==>
              ItemOk(item, w) && At(v, p, ItemBytes(item, w)) && next == p + |ItemBytes(item, w)|
  {
    hide At, IntAt, Encode, ParseExtents, ExtentsBytes, Power, ExtentOk;
    var q := p + w.Ident() + w.Construction();
    ItemFields(v, p, w, item);
    IntIff(v, p, w.Ident(), item.ident);
    IntIff(v, p + w.Ident(), w.Construction(), item.construction);
    PowerPositive(2);
    IntIff(v, q, 2, 0);
    IntIff(v, q + 2, w.base, item.base);
    IntIff(v, q + 2 + w.base, 2, |item.extents|);
    var count := IntAt(v, q + 2 + w.base, 2);
    if count.Some? {
      IntWithin(v, q + 2 + w.base, 2);
      ParseExtentsIff(v, q + 4 + w.base, w, item.extents, next);
      if ParseExtents(v, q + 4 + w.base, w, count.value).Some? { ParseExtentsLength(v, q + 4 + w.base, w, count.value); }
    }
  }

  lemma IntWithin(v: Bytes, p: nat, n: nat)
    requires IntAt(v, p, n).Some?
    ensures p + n <= |v|
  {
  }

  /** The fields of an item lie one after the other. */
  lemma ItemFields(v: Bytes, p: nat, w: Widths, item: Item)
    ensures var q := p + w.Ident() + w.Construction();
            At(v, p, ItemBytes(item, w)) <==>
              && At(v, p, Encode(item.ident, w.Ident())) && At(v, p + w.Ident(), Encode(item.construction, w.Construction()))
              && At(v, q, Encode(0, 2)) && At(v, q + 2, Encode(item.base, w.base))
              && At(v, q + 2 + w.base, Encode(|item.extents|, 2)) && At(v, q + 4 + w.base, ExtentsBytes(item.extents, w))
  {
    hide At, Encode, ExtentsBytes;
    var q := p + w.Ident() + w.Construction();
    var fromCount := Encode(|item.extents|, 2) + ExtentsBytes(item.extents, w);
    var fromBase := Encode(item.base, w.base) + fromCount;
    var fromReference := Encode(0, 2) + fromBase;
    AtJoin(v, p, Encode(item.ident, w.Ident()), Encode(item.construction, w.Construction()) + fromReference);
    AtJoin(v, p + w.Ident(), Encode(item.construction, w.Construction()), fromReference);
    AtJoin(v, q, Encode(0, 2), fromBase);
    AtJoin(v, q + 2, Encode(item.base, w.base), fromCount);
    AtJoin(v, q + 2 + w.base, Encode(|item.extents|, 2), ExtentsBytes(item.extents, w));
  }

  lemma {:induction false} ParseItemsLength(v: Bytes, p: nat, w: Widths, n: nat)
    requires p <= |v| && ParseItems(v, p, w, n).Some?
    ensures |ParseItems(v, p, w, n).value.value| == n && ParseItems(v, p, w, n).value.next <= |v|
  {
    hide ParseItem;
    if n > 0 {
      ParseItemsLength(v, p, w, n - 1);
      ItemWithin(v, ParseItems(v, p, w, n - 1).value.next, w);
    }
  }

  lemma ItemWithin(v: Bytes, p: nat, w: Widths)
    requires p <= |v| && ParseItem(v, p, w).Some?
    ensures p <= ParseItem(v, p, w).value.next <= |v|
  {
    var parsed := ParseItem(v, p, w).value;
    ParseItemIff(v, p, w, parsed.value, parsed.next);
  }

  lemma {:induction false} ParseItemsIff(v: Bytes, p: nat, w: Widths, items: seq<Item>, next: nat)
    requires p <= |v|
    ensures ParseItems(v, p, w, |items|) == Some(Parsed(items, next)) <==>
              ItemsOk(items, w) && At(v, p, ItemsBytes(items, w)) && next == p + |ItemsBytes(items, w)|
    decreases |items|
  {
    hide ParseItem, ItemBytes, ItemsOk, At, HasIdent, ItemOk;
    if items == [] {
      AtNothing(v, p);
      NoItemsOk(w);
    } else {
      var n := |items| - 1;
      var front, last := ItemsBytes(items[..n], w), items[n];
      assert items == items[..n] + [last];
      ParseItemsIff(v, p, w, items[..n], p + |front|);
      AtJoin(v, p, front, ItemBytes(last, w));
      ItemsOkLast(items, w);
      if At(v, p, front) {
        AtWithin(v, p, front);
        ParseItemIff(v, p + |front|, w, last, next);
      }
      var before := ParseItems(v, p, w, n);
      if before.Some? {
        ParseItemsLength(v, p, w, n);
        ParseItemsIff(v, p, w, before.value.value, before.value.next);
        AtWithin(v, p, ItemsBytes(before.value.value, w));
      }
    }
  }

  lemma NoItemsOk(w: Widths)
    ensures ItemsOk([], w)
  {
  }

  lemma AtNothing(v: Bytes, p: nat)
    requires p <= |v|
    ensures At(v, p, [])
  {
  }

  lemma AtWithin(v: Bytes, p: nat, b: Bytes)
    requires At(v, p, b)
    ensures p + |b| <= |v|
  {
  }

  lemma ItemsOkLast(items: seq<Item>, w: Widths)
    requires items != []
    ensures var n := |items| - 1;
            ItemsOk(items, w) <==> ItemsOk(items[..n], w) && ItemOk(items[n], w) && !HasIdent(items[..n], items[n].ident)
  {
    hide ItemOk;
    var n := |items| - 1;
    assert forall i :: 0 <= i < n ==> items[..n][i] == items[i];
  }

  /** The six bytes before the item count. */
  function Header(w: Widths): Bytes {
    Encode(w.version, 1) + ([0, 0, 0] + (Nibbles(w.offset, w.length) + Nibbles(w.base, w.index)))
  }

  lemma ParseWidthsIff(v: Bytes, w: Widths)
    ensures ParseWidths(v) == Some(w) <==> WidthsOk(w) && At(v, 0, Header(w))
  {
    hide At;
    ThreeZeros(v);
    if WidthsOk(w) {
      HeaderBytes(w);
      SixBytes(v, Header(w));
    }
    hide Header;
    if ParseWidths(v) == Some(w) { assert v[4] == w.offset * 16 + w.length && v[5] == w.base * 16 + w.index; }
  }

  lemma HeaderBytes(w: Widths)
    requires WidthsOk(w)
    ensures Header(w) == [w.version, 0, 0, 0, w.offset * 16 + w.length, w.base * 16 + w.index]
  {
    OneByte(w.version);
    OneByte(w.offset * 16 + w.length);
    OneByte(w.base * 16 + w.index);
  }

  lemma SixBytes(v: Bytes, b: Bytes)
    requires |b| == 6
    ensures At(v, 0, b) <==> |v| >= 6 && forall i :: 0 <= i < 6 ==> v[i] == b[i]
  {
    if |v| >= 6 { assert forall i :: 0 <= i < 6 ==> v[0..6][i] == v[i]; }
  }

  lemma ThreeZeros(v: Bytes)
    ensures |v| >= 6 ==> (v[1..4] == [0, 0, 0] <==> v[1] == 0 && v[2] == 0 && v[3] == 0)
  {
    if |v| >= 6 { assert v[1..4] == [v[1], v[2], v[3]]; }
  }

  lemma OneByte(x: nat)
    ensures x < 256 ==> Encode(x, 1) == [x]
  {
    assert Encode(x / 256, 0) == [];
  }

  /**
   The item location box is accepted exactly when it is the encoding of a layout of the accepted
   subset, and is then read as that layout: parsing and encoding are inverse to each other.
   */
  lemma ParseLayoutIff(v: Bytes, l: Layout)
    ensures ParseLayout(v) == Some(l) <==> LayoutOk(l) && v == LayoutBytes(l)
  {
    hide At, Encode, Header, WidthsOk, ParseItems, ItemsBytes, ItemsOk, ParseWidths, Power, IntAt;
    var w := l.widths;
    LayoutParts(v, l);
    ParseWidthsIff(v, w);
    IntIff(v, 6, w.Ident(), |l.items|);
    var parsed := ParseWidths(v);
    if parsed.Some? {
      ParseWidthsIff(v, parsed.value);
      var count := IntAt(v, 6, parsed.value.Ident());
      if count.Some? {
        IntWithin(v, 6, parsed.value.Ident());
        if ParseItems(v, 6 + parsed.value.Ident(), parsed.value, count.value).Some? {
          ParseItemsLength(v, 6 + parsed.value.Ident(), parsed.value, count.value);
        }
        if parsed.value == w { ParseItemsIff(v, 6 + w.Ident(), w, l.items, |v|); }
      }
    }
  }

  lemma WholeAt(v: Bytes, b: Bytes)
    ensures v == b <==> At(v, 0, b) && |v| == |b|
  {
    assert v[0..|v|] == v;
  }

  lemma LayoutParts(v: Bytes, l: Layout)
    ensures var w := l.widths;
            v == LayoutBytes(l) <==>
              && At(v, 0, Header(w)) && At(v, 6, Encode(|l.items|, w.Ident()))
              && At(v, 6 + w.Ident(), ItemsBytes(l.items, w)) && |v| == 6 + w.Ident() + |ItemsBytes(l.items, w)|
  {
    hide Encode, ItemsBytes, At;
    var w := l.widths;
    var rest := Encode(|l.items|, w.Ident()) + ItemsBytes(l.items, w);
    var a, b, c, d: Bytes := Encode(w.version, 1), [0, 0, 0], Nibbles(w.offset, w.length), Nibbles(w.base, w.index);
    Regroup(c, d, rest);
    Regroup(b, c + d, rest);
    Regroup(a, b + (c + d), rest);
    assert LayoutBytes(l) == Header(w) + rest && |Header(w)| == 6;
    AtJoin(v, 0, Header(w), rest);
    AtJoin(v, 6, Encode(|l.items|, w.Ident()), ItemsBytes(l.items, w));
    WholeAt(v, Header(w) + rest);
  }

  /** What the item location box says, item by item. */
  function LocationsOf(v: Bytes): Option<map<nat, Location>> {
    var l := ParseLayout(v);
    if l.None? then None else Some(ResolveAll(l.value.items))
  }

  /** Every layout of the subset is read back as what it says, and nothing else is accepted. */
  lemma LocationsInvertEncoding(v: Bytes)
    ensures LocationsOf(v).Some? <==> exists l :: LayoutOk(l) && v == LayoutBytes(l)
    ensures forall l :: LayoutOk(l) && v == LayoutBytes(l) ==> LocationsOf(v) == Some(ResolveAll(l.items))
  {
    forall l ensures ParseLayout(v) == Some(l) <==> LayoutOk(l) && v == LayoutBytes(l) {
      ParseLayoutIff(v, l);
    }
    if ParseLayout(v).Some? { assert ParseLayout(v) == Some(ParseLayout(v).value); }
  }

  // ---- The reader of item locations ----

  method ReadExtents(data: Reader, w: Widths, base: nat, count: nat) returns (r: Option<seq<Extent>>, ghost parsed: seq<Extent>)
    requires data.pos <= |data.value|
    modifies data
    ensures r.Some? <==> ParseExtents(data.value, old(data.pos), w, count).Some?
    ensures r.Some? ==> ParseExtents(data.value, old(data.pos), w, count) == Some(Parsed(parsed, data.pos)) && data.pos <= |data.value|
    ensures r.Some? ==> r.value == Resolve(Item(0, 0, base, parsed)).extents
  {
    hide IntAt;
    var extents: seq<Extent> := [];
    parsed := [];
    ghost var start := data.pos;
    for k := 0 to count
      invariant ParseExtents(data.value, start, w, k) == Some(Parsed(parsed, data.pos)) && data.pos <= |data.value|
      invariant extents == Resolve(Item(0, 0, base, parsed)).extents
    {
      ghost var at := data.pos;
      var index, offset, length: Option<nat>;
      index := data.Integer(w.Index());
      if index.Some? { offset := data.Integer(w.offset); } else { offset := None; }
      if offset.Some? { length := data.Integer(w.length); } else { length := None; }
      if length.None? || index.value != 0 || length.value == 0 {
        assert ParseExtent(data.value, at, w).None?;
        ParseExtentsFail(data.value, start, w, k + 1, count);
        return None, parsed;
      }
      IntWithin(data.value, at + w.Index() + w.offset, w.length);
      parsed := parsed + [Extent(offset.value, length.value)];
      extents := extents + [Extent(base + offset.value, length.value)];
    }
    r := Some(extents);
  }

  lemma {:induction false} ParseExtentsFail(v: Bytes, p: nat, w: Widths, k: nat, n: nat)
    requires k <= n && ParseExtents(v, p, w, k).None?
    ensures ParseExtents(v, p, w, n).None?
  {
    if k < n { ParseExtentsFail(v, p, w, k, n - 1); }
  }

  lemma {:induction false} ResolvedIdents(items: seq<Item>, ident: nat)
    ensures ident in ResolveAll(items) <==> HasIdent(items, ident)
  {
    if items != [] {
      var n := |items| - 1;
      ResolvedIdents(items[..n], ident);
      assert forall i :: 0 <= i < n ==> items[..n][i] == items[i];
      if HasIdent(items[..n], ident) {
        var i :| 0 <= i < n && items[..n][i].ident == ident;
        assert items[i].ident == ident;
      }
    }
  }

  /** One item; `taken` are the idents before it. */
  method ReadItem(data: Reader, w: Widths, taken: set<nat>) returns (r: Option<(nat, Location)>, ghost parsed: Item)
    requires data.pos <= |data.value|
    modifies data
    ensures var item := ParseItem(data.value, old(data.pos), w);
            && (r.Some? <==> item.Some? && item.value.value.ident !in taken)
            && (r.Some? ==> item == Some(Parsed(parsed, data.pos)) && data.pos <= |data.value| && r.value == (parsed.ident, Resolve(parsed)))
  {
    hide IntAt, ParseExtents;
    parsed := Item(0, 0, 0, []);
    ghost var at := data.pos;
    var ident := data.Integer(w.Ident());
    if ident.None? { return None, parsed; }
    var construction := data.Integer(w.Construction());
    if construction.None? { return None, parsed; }
    var reference := data.Integer(2);
    if reference.None? { return None, parsed; }
    var base := data.Integer(w.base);
    if base.None? { return None, parsed; }
    var count := data.Integer(2);
    if count.None? { return None, parsed; }
    if construction.value > 1 || reference.value != 0 || ident.value in taken || count.value == 0 { return None, parsed; }
    IntWithin(data.value, at + w.Ident() + w.Construction() + 2 + w.base, 2);
    var extents, es := ReadExtents(data, w, base.value, count.value);
    if extents.None? { return None, parsed; }
    parsed := Item(ident.value, construction.value, base.value, es);
    r := Some((ident.value, Location(construction.value, extents.value)));
  }

  method ReadWidths(data: Reader) returns (r: Option<Widths>)
    requires data.pos == 0
    modifies data
    ensures r == ParseWidths(data.value)
    ensures r.Some? ==> data.pos == 6 <= |data.value|
  {
    var version := data.Integer(1);
    if version.None? { return None; }
    var flags := data.Take(3);
    if flags.None? || flags.value != [0, 0, 0] || version.value > 2 { FirstByte(data.value); return None; }
    var first := data.Integer(1);
    if first.None? { return None; }
    var second := data.Integer(1);
    if second.None? { return None; }
    FirstByte(data.value);
    var w := Widths(version.value, first.value / 16, first.value % 16, second.value / 16, second.value % 16);
    r := if WidthsOk(w) then Some(w) else None;
  }

  lemma FirstByte(v: Bytes)
    ensures |v| > 0 ==> IntAt(v, 0, 1) == Some(v[0])
    ensures |v| > 4 ==> IntAt(v, 4, 1) == Some(v[4])
    ensures |v| > 5 ==> IntAt(v, 5, 1) == Some(v[5])
  {
    SingleByte(v, 0);
    SingleByte(v, 4);
    SingleByte(v, 5);
  }

  lemma SingleByte(v: Bytes, p: nat)
    ensures p < |v| ==> IntAt(v, p, 1) == Some(v[p])
  {
    if p < |v| {
      OneDigit(v[p]);
      assert v[p..p + 1] == [v[p]];
    }
  }

  lemma OneDigit(x: Byte)
    ensures BigEndian([x]) == x
  {
    assert [x][..0] == [];
  }

  /** Reads an item location box: header, widths, and every item with its extents. */
  method Locations(value: Bytes) returns (r: Option<map<nat, Location>>)
    ensures r == LocationsOf(value)
  {
    hide IntAt, ParseItem, ParseWidths;
    var data := new Reader(value);
    var w := ReadWidths(data);
    if w.None? { return None; }
    var count := data.Integer(w.value.Ident());
    if count.None? || count.value > MAX_BOXES { return None; }
    IntWithin(value, 6, w.value.Ident());
    var result: map<nat, Location> := map[];
    ghost var items: seq<Item> := [];
    ghost var start := data.pos;
    for k := 0 to count.value
      invariant data.value == value && data.pos <= |value|
      invariant ParseItems(value, start, w.value, k) == Some(Parsed(items, data.pos)) && result == ResolveAll(items)
    {
      ghost var at := data.pos;
      var item, parsed := ReadItem(data, w.value, result.Keys);
      if ParseItem(value, at, w.value).Some? { ResolvedIdents(items, ParseItem(value, at, w.value).value.value.ident); }
      if item.None? {
        ParseItemsFail(value, start, w.value, k + 1, count.value);
        return None;
      }
      items := items + [parsed];
      result := result[item.value.0 := item.value.1];
    }
    r := if data.pos == |value| then Some(result) else None;
  }

  lemma {:induction false} ParseItemsFail(v: Bytes, p: nat, w: Widths, k: nat, n: nat)
    requires k <= n && ParseItems(v, p, w, k).None?
    ensures ParseItems(v, p, w, n).None?
  {
    if k < n { ParseItemsFail(v, p, w, k, n - 1); }
  }

  // ---- Item information ----

  const IINF: Bytes := [105, 105, 110, 102]
  const INFE: Bytes := [105, 110, 102, 101]
  const ILOC: Bytes := [105, 108, 111, 99]
  const IDAT: Bytes := [105, 100, 97, 116]
  const META: Bytes := [109, 101, 116, 97]
  const MDAT: Bytes := [109, 100, 97, 116]
  const MOOV: Bytes := [109, 111, 111, 118]
  const FTYP: Bytes := [102, 116, 121, 112]
  const FREE: Bytes := [102, 114, 101, 101]
  const SKIP: Bytes := [115, 107, 105, 112]
  const EXIF: Bytes := [69, 120, 105, 102]
  const MIME: Bytes := [109, 105, 109, 101]
  const URI: Bytes := [117, 114, 105, 32]
  const RDF_XML: Bytes := [97, 112, 112, 108, 105, 99, 97, 116, 105, 111, 110, 47, 114, 100, 102, 43, 120, 109, 108]

  datatype Entry = Entry(ident: nat, metadata: bool)

  /** The strings at the end of an item entry: name, and for a mime item its content type and perhaps an encoding. */
  function EntryTail(v: Bytes, p: nat, kind: Bytes): Option<bool>
    requires p <= |v|
  {
    var name := ZeroFrom(v, p);
    if name.None? || kind == URI then None
    else if kind != MIME then if name.value + 1 == |v| then Some(kind == EXIF) else None
    else
      var start := name.value + 1;
      var content := ZeroFrom(v, start);
      if content.None? then None
      else if content.value + 1 == |v| then Some(v[start..content.value] == RDF_XML)
      else
        var encoding := ZeroFrom(v, content.value + 1);
        if encoding.None? || encoding.value != content.value + 1 || encoding.value + 1 != |v| then None
        else Some(v[start..content.value] == RDF_XML)
  }

  /** One item entry: its ident, and whether it is metadata; None where it is unsupported, protected or malformed. */
  function EntryOf(v: Bytes): Option<Entry> {
    var version := IntAt(v, 0, 1);
    if version.None? || |v| < 4 || version.value < 2 || version.value > 3 then None
    else
      var width := if version.value == 2 then 2 else 4;
      var ident, protected := IntAt(v, 4, width), IntAt(v, 4 + width, 2);
      if ident.None? || protected.None? || |v| < 10 + width || protected.value != 0 then None
      else
        var metadata := EntryTail(v, 10 + width, v[6 + width..10 + width]);
        if metadata.None? then None else Some(Entry(ident.value, metadata.value))
  }

  method ReadEntry(v: Bytes) returns (r: Option<Entry>)
    ensures r == EntryOf(v)
  {
    hide IntAt, ZeroFrom, EntryTail;
    var data := new Reader(v);
    var version := data.Integer(1);
    if version.None? { return None; }
    var flags := data.Take(3);
    if flags.None? || version.value < 2 || version.value > 3 { return None; }
    var ident := data.Integer(if version.value == 2 then 2 else 4);
    if ident.None? { return None; }
    var protected := data.Integer(2);
    if protected.None? { return None; }
    var kind := data.Take(4);
    if kind.None? { return None; }
    var metadata := ReadEntryTail(data, kind.value);
    if metadata.None? || protected.value != 0 { return None; }
    r := Some(Entry(ident.value, metadata.value));
  }

  method ReadEntryTail(data: Reader, kind: Bytes) returns (metadata: Option<bool>)
    requires data.pos <= |data.value|
    modifies data
    ensures metadata == EntryTail(data.value, old(data.pos), kind)
  {
    hide ZeroFrom;
    var name := data.String();
    if name.None? { return None; }
    var content, encoding: Option<Bytes> := Some([]), Some([]);
    if kind == MIME {
      content := data.String();
      if content.None? { return None; }
      if data.pos < |data.value| {
        encoding := data.String();
        if encoding.None? { return None; }
      }
    }
    if kind == URI || data.pos != |data.value| || encoding.value != [] { return None; }
    metadata := Some(kind == EXIF || (kind == MIME && content.value == RDF_XML));
  }

  /** The content of a box, when it is small enough to be read whole. */
  function Content(file: Bytes, box: Box): (r: Option<Bytes>)
    ensures r.Some? ==> |r.value| <= MAX_METADATA
  {
    if box.first <= box.last <= |file| && box.last - box.first <= MAX_METADATA then Some(file[box.first..box.last]) else None
  }

  function EntriesOf(v: Bytes, boxes: seq<Box>): Option<map<nat, bool>> {
    if boxes == [] then Some(map[])
    else
      var n := |boxes| - 1;
      var before, content := EntriesOf(v, boxes[..n]), Content(v, boxes[n]);
      var entry := if content.Some? then EntryOf(content.value) else None;
      if before.None? || boxes[n].kind != INFE || entry.None? || entry.value.ident in before.value then None
      else Some(before.value[entry.value.ident := entry.value.metadata])
  }

  /** The width of the entry count; None where version or flags are unsupported. */
  function InfoCountWidth(v: Bytes): Option<nat> {
    if |v| < 4 || v[1..4] != [0, 0, 0] || v[0] > 1 then None else Some(if v[0] == 0 then 2 else 4)
  }

  /** The items of an item information box, and which of them are metadata. */
  function InformationOf(v: Bytes): Option<map<nat, bool>> {
    var width := InfoCountWidth(v);
    if width.None? then None
    else
      var count, boxes := IntAt(v, 4, width.value), BoxesOf(v, 4 + width.value, |v|);
      if count.None? || boxes.None? then None
      else
        var items := EntriesOf(v, boxes.value);
        if items.None? || items.value == map[] || |items.value| != count.value then None else items
  }

  lemma {:induction false} EntriesFail(v: Bytes, boxes: seq<Box>, k: nat)
    requires k <= |boxes| && EntriesOf(v, boxes[..k]).None?
    ensures EntriesOf(v, boxes).None?
  {
    if k < |boxes| {
      assert boxes[..|boxes| - 1][..k] == boxes[..k];
      EntriesFail(v, boxes[..|boxes| - 1], k);
    } else {
      assert boxes[..k] == boxes;
    }
  }

  /** Version, flags and entry count; the count's width tells where the entries begin. */
  method ReadInfoHeader(file: Bytes, start: nat, end: nat) returns (count: Option<nat>, width: nat)
    requires start <= end <= |file|
    ensures var v := file[start..end];
            && (count.Some? ==> InfoCountWidth(v) == Some(width) && IntAt(v, 4, width) == count && 4 + width <= |v|)
            && (count.None? ==> InfoCountWidth(v).None? || IntAt(v, 4, InfoCountWidth(v).value).None?)
  {
    hide IntAt;
    InfoHeader(file, start, end);
    var header := new Reader(file[start..if start + 8 < end then start + 8 else end]);
    var version := header.Integer(1);
    if version.None? { return None, 0; }
    var flags := header.Take(3);
    if flags.None? || flags.value != [0, 0, 0] || version.value > 1 { return None, 0; }
    width := if version.value == 0 then 2 else 4;
    count := header.Integer(width);
    if count.Some? { IntWithin(file[start..end], 4, width); }
  }

  /** The entries, box by box. */
  method ReadEntries(file: Bytes, start: nat, end: nat, boxes: seq<Box>, ghost inner: seq<Box>) returns (r: Option<map<nat, bool>>)
    requires start <= end <= |file| && boxes == Shift(inner, start)
    requires forall k :: 0 <= k < |inner| ==> inner[k].first <= inner[k].last <= end - start
    ensures r == EntriesOf(file[start..end], inner)
  {
    hide EntryOf, Content;
    ghost var v := file[start..end];
    var result: map<nat, bool> := map[];
    assert inner[..0] == [];
    for k := 0 to |boxes|
      invariant EntriesOf(v, inner[..k]) == Some(result)
    {
      assert inner[..k + 1][..k] == inner[..k];
      ShiftedContent(file, start, end, inner[k]);
      var content, entry := Content(file, boxes[k]), None;
      if content.Some? { entry := ReadEntry(content.value); }
      if boxes[k].kind != INFE || entry.None? || entry.value.ident in result {
        EntriesFail(v, inner, k + 1);
        return None;
      }
      result := result[entry.value.ident := entry.value.metadata];
    }
    assert inner[..|inner|] == inner;
    r := Some(result);
  }

  /** Reads the item information box that lies in a range of the file. */
  method ItemInformation(file: Bytes, start: nat, end: nat) returns (r: Option<map<nat, bool>>)
    requires start <= end <= |file|
    ensures r == InformationOf(file[start..end])
  {
    hide IntAt, EntriesOf, InfoCountWidth, BoxesFrom;
    var count, width := ReadInfoHeader(file, start, end);
    if count.None? { return None; }
    var boxes := Boxes(file, start + 4 + width, end);
    BoxesShift(file, start, start + 4 + width, end, 0);
    if boxes.None? { return None; }
    ghost var inner := BoxesOf(file[start..end], 4 + width, end - start).value;
    BoxesInside(file[start..end], 4 + width, end - start);
    var result := ReadEntries(file, start, end, boxes.value, inner);
    r := if result.None? || count.value != |result.value| || result.value == map[] then None else result;
  }

  lemma BoxesInside(file: Bytes, start: nat, end: nat)
    requires BoxesOf(file, start, end).Some?
    ensures var boxes := BoxesOf(file, start, end).value;
            forall k :: 0 <= k < |boxes| ==> boxes[k].first <= boxes[k].last <= end
  {
    BoxesTile(file, start, end, 0);
  }

  /** A box of a range, seen in the file. */
  lemma ShiftedContent(file: Bytes, start: nat, end: nat, box: Box)
    requires start <= end <= |file| && box.first <= box.last <= end - start
    ensures Content(file, Shift([box], start)[0]) == Content(file[start..end], box)
  {
    SliceOfRange(file, start, end, start + box.first, start + box.last);
  }

  /** The fields at the front of an item information box. */
  lemma InfoHeader(file: Bytes, start: nat, end: nat)
    requires start <= end <= |file|
    ensures var v, head := file[start..end], file[start..if start + 8 < end then start + 8 else end];
            && IntAt(head, 0, 1) == IntAt(v, 0, 1) && IntAt(head, 4, 2) == IntAt(v, 4, 2) && IntAt(head, 4, 4) == IntAt(v, 4, 4)
            && (|head| >= 4 <==> |v| >= 4) && (|v| >= 4 ==> head[1..4] == v[1..4] && IntAt(v, 0, 1) == Some(v[0]))
  {
    var v, head := file[start..end], file[start..if start + 8 < end then start + 8 else end];
    assert head <= v;
    FirstByte(v);
    if |v| >= 1 { assert head[0..1] == v[0..1]; }
    if |v| >= 4 { assert head[1..4] == v[1..4]; }
    if |v| >= 6 { assert head[4..6] == v[4..6]; }
    if |v| >= 8 { assert head[4..8] == v[4..8]; }
  }
}
