/**
 The strict JSON scanner that guards the protocol, in the client and in the build script: it
 runs over the text before the text is parsed and rejects deep nesting, long arrays, repeated
 keys and numbers that are not integers. Text is a sequence of UTF-16 code units.
 */
module StrictJson {
  import opened JavaScript
  import opened LineLog

  type Unit = u: int | 0 <= u < 0x1_0000

  type Text = seq<Unit>

  const MAX_JSON_DEPTH := 16
  const MAX_ARRAY_ITEMS := 256

  const QUOTE: Unit := 34
  const COMMA: Unit := 44
  const MINUS: Unit := 45
  const ZERO: Unit := 48
  const NINE: Unit := 57
  const COLON: Unit := 58
  const OPEN_BRACKET: Unit := 91
  const BACKSLASH: Unit := 92
  const CLOSE_BRACKET: Unit := 93
  const OPEN_BRACE: Unit := 123
  const CLOSE_BRACE: Unit := 125
  const NULL_WORD: Text := [110, 117, 108, 108]
  const TRUE_WORD: Text := [116, 114, 117, 101]
  const FALSE_WORD: Text := [102, 97, 108, 115, 101]

  predicate Digit(u: Unit) {
    ZERO <= u <= NINE
  }

  // ---- What the scanner does ----

  function SkipSpace(t: Text, i: nat): (r: nat)
    requires i <= |t|
    ensures i <= r <= |t|
    decreases |t| - i
  {
    if i < |t| && Space(t[i]) then SkipSpace(t, i + 1) else i
  }

  predicate Sees(t: Text, i: nat, u: Unit) {
    i < |t| && t[i] == u
  }

  /** The index after the closing quote. */
  function StringEnd(t: Text, i: nat): (r: Option<nat>)
    ensures r.Some? ==> i < r.value <= |t|
    decreases |t| - i
  {
    if i >= |t| then None
    else if t[i] == QUOTE then Some(i + 1)
    else if t[i] == BACKSLASH then StringEnd(t, i + 2)
    else if t[i] < 32 then None
    else StringEnd(t, i + 1)
  }

  function HexValue(u: Unit): Option<nat> {
    if Digit(u) then Some(u - ZERO)
    else if 65 <= u <= 70 then Some(u - 55)
    else if 97 <= u <= 102 then Some(u - 87)
    else None
  }

  function HexUnit(d: Text): Option<Unit>
    requires |d| == 4
  {
    var a, b, c, e := HexValue(d[0]), HexValue(d[1]), HexValue(d[2]), HexValue(d[3]);
    if a.Some? && b.Some? && c.Some? && e.Some? && a.value < 16 && b.value < 16 && c.value < 16 && e.value < 16
    then Some(((a.value * 16 + b.value) * 16 + c.value) * 16 + e.value)
    else None
  }

  /** The unit a one-letter escape stands for (RFC 8259, section 7). */
  function ShortUnit(letter: Unit): Option<Unit> {
    if letter == QUOTE || letter == BACKSLASH || letter == 47 then Some(letter)
    else if letter == 98 then Some(8)
    else if letter == 102 then Some(12)
    else if letter == 110 then Some(10)
    else if letter == 114 then Some(13)
    else if letter == 116 then Some(9)
    else None
  }

  function Prepend(u: Unit, rest: Option<Text>): Option<Text> {
    if rest.Some? then Some([u] + rest.value) else None
  }

  /** The value of the text between two quotes; None where parsing it throws. */
  function Unescape(s: Text): Option<Text> {
    if s == [] then Some([])
    else if s[0] == BACKSLASH then
      if |s| >= 2 && ShortUnit(s[1]).Some? then Prepend(ShortUnit(s[1]).value, Unescape(s[2..]))
      else if |s| >= 6 && s[1] == 117 && HexUnit(s[2..6]).Some? then Prepend(HexUnit(s[2..6]).value, Unescape(s[6..]))
      else None
    else if s[0] == QUOTE || s[0] < 32 then None
    else Prepend(s[0], Unescape(s[1..]))
  }

  datatype Token = Token(end: nat, value: Text)

  function ScanString(t: Text, i: nat): (r: Option<Token>)
    ensures r.Some? ==> i + 1 < r.value.end <= |t|
  {
    var end := StringEnd(t, i + 1);
    if end.None? then None
    else
      var value := Unescape(t[i + 1..end.value - 1]);
      if value.None? then None else Some(Token(end.value, value.value))
  }

  function TokenEnd(t: Text, i: nat): (r: nat)
    requires i <= |t|
    ensures i <= r <= |t|
    decreases |t| - i
  {
    if i < |t| && !Space(t[i]) && t[i] != COMMA && t[i] != CLOSE_BRACKET && t[i] != CLOSE_BRACE then TokenEnd(t, i + 1) else i
  }

  predicate Digits(s: Text) {
    s != [] && (forall k :: 0 <= k < |s| ==> Digit(s[k])) && (s[0] == ZERO ==> |s| == 1)
  }

  predicate IntegerToken(s: Text) {
    Digits(s) || (s != [] && s[0] == MINUS && Digits(s[1..]))
  }

  function ScanInteger(t: Text, i: nat): (r: Option<nat>)
    requires i <= |t|
    ensures r.Some? ==> i < r.value <= |t|
  {
    var end := TokenEnd(t, i);
    if IntegerToken(t[i..end]) then Some(end) else None
  }

  predicate StartsWith(t: Text, i: nat, word: Text) {
    i + |word| <= |t| && t[i..i + |word|] == word
  }

  /** The index after the value at `i`; None where the scanner throws. */
  function ScanValue(t: Text, i: nat, depth: nat): (r: Option<nat>)
    requires i <= |t|
    ensures r.Some? ==> i < r.value <= |t|
    decreases |t| - i, 2
  {
    if depth > MAX_JSON_DEPTH then None
    else if Sees(t, i, OPEN_BRACE) then ScanObject(t, i, depth)
    else if Sees(t, i, OPEN_BRACKET) then ScanArray(t, i, depth)
    else if Sees(t, i, QUOTE) then (var s := ScanString(t, i); if s.Some? then Some(s.value.end) else None)
    else if StartsWith(t, i, TRUE_WORD) then Some(i + 4)
    else if StartsWith(t, i, FALSE_WORD) then Some(i + 5)
    else if StartsWith(t, i, NULL_WORD) then Some(i + 4)
    else ScanInteger(t, i)
  }

  function ScanObject(t: Text, i: nat, depth: nat): (r: Option<nat>)
    requires i < |t|
    ensures r.Some? ==> i < r.value <= |t|
    decreases |t| - i, 1
  {
    var k := SkipSpace(t, i + 1);
    if Sees(t, k, CLOSE_BRACE) then Some(k + 1) else ScanMembers(t, k, depth, {})
  }

  /** The members of an object from a key on; `keys` are those before. */
  function ScanMembers(t: Text, i: nat, depth: nat, keys: set<Text>): (r: Option<nat>)
    requires i <= |t|
    ensures r.Some? ==> i < r.value <= |t|
    decreases |t| - i, 0
  {
    if !Sees(t, i, QUOTE) then None
    else
      var key := ScanString(t, i);
      if key.None? || key.value.value in keys then None
      else
        var colon := SkipSpace(t, key.value.end);
        if !Sees(t, colon, COLON) then None
        else
          var value := ScanValue(t, SkipSpace(t, colon + 1), depth + 1);
          if value.None? then None
          else
            var end := SkipSpace(t, value.value);
            if Sees(t, end, CLOSE_BRACE) then Some(end + 1)
            else if !Sees(t, end, COMMA) then None
            else ScanMembers(t, SkipSpace(t, end + 1), depth, keys + {key.value.value})
  }

  function ScanArray(t: Text, i: nat, depth: nat): (r: Option<nat>)
    requires i < |t|
    ensures r.Some? ==> i < r.value <= |t|
    decreases |t| - i, 1
  {
    var k := SkipSpace(t, i + 1);
    if Sees(t, k, CLOSE_BRACKET) then Some(k + 1) else ScanItems(t, k, depth, 0)
  }

  /** The items of an array from an item on; `items` is the number of those before. */
  function ScanItems(t: Text, i: nat, depth: nat, items: nat): (r: Option<nat>)
    requires i <= |t|
    ensures r.Some? ==> i < r.value <= |t|
    decreases |t| - i, 3
  {
    if items + 1 > MAX_ARRAY_ITEMS then None
    else
      var value := ScanValue(t, i, depth + 1);
      if value.None? then None
      else
        var end := SkipSpace(t, value.value);
        if Sees(t, end, CLOSE_BRACKET) then Some(end + 1)
        else if !Sees(t, end, COMMA) then None
        else ScanItems(t, SkipSpace(t, end + 1), depth, items + 1)
  }

  /** The whole scan: it ends on every text. */
  predicate Accepts(t: Text) {
    var value := ScanValue(t, SkipSpace(t, 0), 1);
    value.Some? && SkipSpace(t, value.value) == |t|
  }

  // ---- The scanner object ----

  datatype Next = Malformed | Closed | Another(key: Text)

  class Scanner {
    const text: Text
    var index: nat

    constructor (text: Text)
      ensures this.text == text && index == 0
    {
      this.text := text;
      index := 0;
    }

    method SkipWhitespace()
      requires index <= |text|
      modifies this
      ensures index == SkipSpace(text, old(index))
    {
      while index < |text| && Space(text[index])
        invariant index <= |text| && SkipSpace(text, index) == SkipSpace(text, old(index))
      {
        index := index + 1;
      }
    }

    method String() returns (value: Option<Text>)
      requires Sees(text, index, QUOTE)
      modifies this
      ensures value == var r := ScanString(text, old(index)); if r.Some? then Some(r.value.value) else None
      ensures value.Some? ==> index == ScanString(text, old(index)).value.end
    {
      var start := index;
      index := index + 1;
      while index < |text|
        invariant index > start && StringEnd(text, index) == StringEnd(text, start + 1)
        decreases |text| - index
      {
        if text[index] == QUOTE {
          index := index + 1;
          return Unescape(text[start + 1..index - 1]);
        }
        if text[index] == BACKSLASH {
          index := index + 2;
        } else {
          if text[index] < 32 { return None; }
          index := index + 1;
        }
      }
      value := None;
    }

    method Integer() returns (ok: bool)
      requires index <= |text|
      modifies this
      ensures ok == ScanInteger(text, old(index)).Some? && (ok ==> index == ScanInteger(text, old(index)).value)
    {
      var start := index;
      while index < |text| && !Space(text[index]) && text[index] != COMMA && text[index] != CLOSE_BRACKET && text[index] != CLOSE_BRACE
        invariant start <= index <= |text| && TokenEnd(text, index) == TokenEnd(text, start)
      {
        index := index + 1;
      }
      ok := IntegerToken(text[start..index]);
    }

    method Value(depth: nat) returns (ok: bool)
      requires index <= |text|
      modifies this
      ensures ok == ScanValue(text, old(index), depth).Some? && (ok ==> index == ScanValue(text, old(index), depth).value)
      decreases |text| - index, 1
    {
      if depth > MAX_JSON_DEPTH { return false; }
      if Sees(text, index, OPEN_BRACE) {
        ok := Object(depth);
      } else if Sees(text, index, OPEN_BRACKET) {
        ok := Array(depth);
      } else if Sees(text, index, QUOTE) {
        var value := String();
        ok := value.Some?;
      } else if StartsWith(text, index, TRUE_WORD) {
        index := index + 4;
        ok := true;
      } else if StartsWith(text, index, FALSE_WORD) {
        index := index + 5;
        ok := true;
      } else if StartsWith(text, index, NULL_WORD) {
        index := index + 4;
        ok := true;
      } else {
        ok := Integer();
      }
    }

    method Object(depth: nat) returns (ok: bool)
      requires Sees(text, index, OPEN_BRACE)
      modifies this
      ensures ok == ScanObject(text, old(index), depth).Some? && (ok ==> index == ScanObject(text, old(index), depth).value)
      decreases |text| - index, 0
    {
      hide SkipSpace, ScanMembers;
      index := index + 1;
      SkipWhitespace();
      var keys: set<Text> := {};
      if Sees(text, index, CLOSE_BRACE) {
        index := index + 1;
        return true;
      }
      while true
        invariant old(index) < index <= |text|
        invariant ScanMembers(text, index, depth, keys) == ScanObject(text, old(index), depth)
        decreases |text| - index
      {
        var next := Member(depth, keys);
        match next
        case Malformed => return false;
        case Closed => return true;
        case Another(key) => keys := keys + {key};
      }
    }

    /** One member of an object, and the comma or brace after it. */
    method Member(depth: nat, keys: set<Text>) returns (next: Next)
      requires index <= |text|
      modifies this
      ensures old(index) < index <= |text| || next.Malformed?
      ensures ScanMembers(text, old(index), depth, keys) ==
                match next
                case Malformed => None
                case Closed => Some(index)
                case Another(key) => ScanMembers(text, index, depth, keys + {key})
      decreases |text| - index, 0
    {
      hide SkipSpace, StringEnd, Unescape, ScanValue, ScanString;
      hide HexUnit, ShortUnit, Space;
      if !Sees(text, index, QUOTE) { return Malformed; }
      var key := String();
      if key.None? || key.value in keys { return Malformed; }
      SkipWhitespace();
      if !Sees(text, index, COLON) { return Malformed; }
      index := index + 1;
      SkipWhitespace();
      var ok := Value(depth + 1);
      if !ok { return Malformed; }
      SkipWhitespace();
      if Sees(text, index, CLOSE_BRACE) {
        index := index + 1;
        return Closed;
      }
      if !Sees(text, index, COMMA) { return Malformed; }
      index := index + 1;
      SkipWhitespace();
      next := Another(key.value);
    }

    method Array(depth: nat) returns (ok: bool)
      requires Sees(text, index, OPEN_BRACKET)
      modifies this
      ensures ok == ScanArray(text, old(index), depth).Some? && (ok ==> index == ScanArray(text, old(index), depth).value)
      decreases |text| - index, 0
    {
      hide SkipSpace, ScanValue;
      index := index + 1;
      SkipWhitespace();
      var items := 0;
      if Sees(text, index, CLOSE_BRACKET) {
        index := index + 1;
        return true;
      }
      while true
        invariant old(index) < index <= |text| && items >= 0
        invariant ScanItems(text, index, depth, items) == ScanArray(text, old(index), depth)
        decreases |text| - index
      {
        items := items + 1;
        if items > MAX_ARRAY_ITEMS { return false; }
        ok := Value(depth + 1);
        if !ok { return; }
        SkipWhitespace();
        if Sees(text, index, CLOSE_BRACKET) {
          index := index + 1;
          return true;
        }
        if !Sees(text, index, COMMA) { return false; }
        index := index + 1;
        SkipWhitespace();
      }
    }

    method Scan() returns (ok: bool)
      requires index == 0
      modifies this
      ensures ok == Accepts(text)
    {
      SkipWhitespace();
      ok := Value(1);
      if !ok { return; }
      SkipWhitespace();
      ok := index == |text|;
    }
  }

  // ---- JSON trees and their spellings ----

  datatype Tree =
    | Word(word: Text)
    | Number(digits: Text)
    | Str(value: Text)
    | Arr(items: Trees)
    | Obj(members: Members)

  datatype Trees = NoTrees | Trees(head: Tree, tail: Trees)

  datatype Members = NoMembers | Member(key: Text, value: Tree, tail: Members)

  /** One unit of a string: as it is, as a one-letter escape, or as four hexadecimal digits. */
  datatype Spelled = Verbatim(unit: Unit) | Short(letter: Unit) | Hex(digits: Text)

  /**
   A JSON document as it is spelled: every choice of white space and of escapes that the grammar of
   RFC 8259 leaves open is recorded in it. The scanner skips more white space than that of JSON.
   */
  datatype Doc =
    | WordDoc(word: Text)
    | NumberDoc(digits: Text)
    | StrDoc(chars: seq<Spelled>)
    | ArrDoc(space: Text, items: ItemDocs)
    | ObjDoc(space: Text, members: MemberDocs)

  datatype ItemDocs = NoItems | Item(value: Doc, before: Text, after: Text, rest: ItemDocs)

  datatype MemberDocs =
    NoMembersDoc | MemberDoc(key: seq<Spelled>, beforeColon: Text, afterColon: Text, value: Doc, before: Text, after: Text, rest: MemberDocs)

  predicate Blank(s: Text) {
    forall k :: 0 <= k < |s| ==> Space(s[k])
  }

  predicate SpelledOk(c: Spelled) {
    match c
    case Verbatim(u) => u >= 32 && u != QUOTE && u != BACKSLASH
    case Short(letter) => ShortUnit(letter).Some?
    case Hex(d) => |d| == 4 && HexUnit(d).Some?
  }

  predicate Valid(d: Doc) {
    match d
    case WordDoc(w) => w == NULL_WORD || w == TRUE_WORD || w == FALSE_WORD
    case NumberDoc(digits) => IntegerToken(digits)
    case StrDoc(chars) => forall c :: c in chars ==> SpelledOk(c)
    case ArrDoc(space, items) => Blank(space) && ValidItems(items)
    case ObjDoc(space, members) => Blank(space) && ValidMembers(members)
  }

  predicate ValidItems(items: ItemDocs) {
    items.Item? ==> Valid(items.value) && Blank(items.before) && Blank(items.after) && ValidItems(items.rest)
  }

  predicate ValidMembers(members: MemberDocs) {
    members.MemberDoc? ==>
      && (forall c :: c in members.key ==> SpelledOk(c)) && Blank(members.beforeColon) && Blank(members.afterColon)
      && Valid(members.value) && Blank(members.before) && Blank(members.after) && ValidMembers(members.rest)
  }

  function SpellUnit(c: Spelled): Text {
    match c
    case Verbatim(u) => [u]
    case Short(letter) => [BACKSLASH, letter]
    case Hex(d) => [BACKSLASH, 117] + d
  }

  function UnitOf(c: Spelled): Unit
    requires SpelledOk(c)
  {
    match c
    case Verbatim(u) => u
    case Short(letter) => ShortUnit(letter).value
    case Hex(d) => HexUnit(d).value
  }

  function Spell(chars: seq<Spelled>): Text {
    if chars == [] then [] else SpellUnit(chars[0]) + Spell(chars[1..])
  }

  function Units(chars: seq<Spelled>): Text
    requires forall c :: c in chars ==> SpelledOk(c)
  {
    if chars == [] then [] else [UnitOf(chars[0])] + Units(chars[1..])
  }

  function Quoted(chars: seq<Spelled>): Text {
    [QUOTE] + (Spell(chars) + [QUOTE])
  }

  /** The text of a document. */
  function TextOf(d: Doc): Text {
    match d
    case WordDoc(w) => w
    case NumberDoc(digits) => digits
    case StrDoc(chars) => Quoted(chars)
    case ArrDoc(space, items) => [OPEN_BRACKET] + (space + TextOfItems(items))
    case ObjDoc(space, members) => [OPEN_BRACE] + (space + TextOfMembers(members))
  }

  function TextOfItems(items: ItemDocs): Text {
    match items
    case NoItems => [CLOSE_BRACKET]
    case Item(value, before, after, rest) =>
      TextOf(value) + (before + (if rest.NoItems? then [CLOSE_BRACKET] else [COMMA] + (after + TextOfItems(rest))))
  }

  function TextOfMembers(members: MemberDocs): Text {
    match members
    case NoMembersDoc => [CLOSE_BRACE]
    case MemberDoc(key, beforeColon, afterColon, value, before, after, rest) =>
      Quoted(key) + (beforeColon + ([COLON] + (afterColon + (TextOf(value) + (before
      + (if rest.NoMembersDoc? then [CLOSE_BRACE] else [COMMA] + (after + TextOfMembers(rest))))))))
  }

  /** The tree a document spells. */
  function Meaning(d: Doc): Tree
    requires Valid(d)
  {
    match d
    case WordDoc(w) => Word(w)
    case NumberDoc(digits) => Number(digits)
    case StrDoc(chars) => Str(Units(chars))
    case ArrDoc(_, items) => Arr(MeaningOfItems(items))
    case ObjDoc(_, members) => Obj(MeaningOfMembers(members))
  }

  function MeaningOfItems(items: ItemDocs): Trees
    requires ValidItems(items)
  {
    match items
    case NoItems => NoTrees
    case Item(value, _, _, rest) => Trees(Meaning(value), MeaningOfItems(rest))
  }

  function MeaningOfMembers(members: MemberDocs): Members
    requires ValidMembers(members)
  {
    match members
    case NoMembersDoc => NoMembers
    case MemberDoc(key, _, _, value, _, _, rest) => Member(Units(key), Meaning(value), MeaningOfMembers(rest))
  }

  // ---- The limits ----

  function Count(items: Trees): nat {
    if items.NoTrees? then 0 else 1 + Count(items.tail)
  }

  function KeySet(members: Members): set<Text> {
    if members.NoMembers? then {} else {members.key} + KeySet(members.tail)
  }

  function Max(a: nat, b: nat): nat {
    if a < b then b else a
  }

  function Depth(t: Tree): nat {
    match t
    case Arr(items) => 1 + DepthOfItems(items)
    case Obj(members) => 1 + DepthOfMembers(members)
    case _ => 1
  }

  function DepthOfItems(items: Trees): nat {
    if items.NoTrees? then 0 else Max(Depth(items.head), DepthOfItems(items.tail))
  }

  function DepthOfMembers(members: Members): nat {
    if members.NoMembers? then 0 else Max(Depth(members.value), DepthOfMembers(members.tail))
  }

  /** Every array in the tree is short enough, and no object repeats a key. */
  predicate Tidy(t: Tree) {
    match t
    case Arr(items) => Count(items) <= MAX_ARRAY_ITEMS && TidyItems(items)
    case Obj(members) => TidyMembers(members)
    case _ => true
  }

  predicate TidyItems(items: Trees) {
    items.Trees? ==> Tidy(items.head) && TidyItems(items.tail)
  }

  predicate TidyMembers(members: Members) {
    members.Member? ==> Tidy(members.value) && members.key !in KeySet(members.tail) && TidyMembers(members.tail)
  }

  // ---- Reading pieces of text ----

  lemma StartsSplit(t: Text, i: nat, a: Text, b: Text)
    requires StartsWith(t, i, a + b)
    ensures StartsWith(t, i, a) && StartsWith(t, i + |a|, b) && i + |a| + |b| <= |t|
  {
    assert t[i..i + |a|] == (a + b)[..|a|] == a;
    assert t[i + |a|..i + |a| + |b|] == (a + b)[|a|..] == b;
  }

  lemma StartsUnit(t: Text, i: nat, u: Unit)
    requires StartsWith(t, i, [u])
    ensures Sees(t, i, u)
  {
    assert t[i..i + 1][0] == u;
  }

  /** White space is skipped up to the next piece. */
  lemma {:induction false} SkipsBlank(t: Text, i: nat, space: Text)
    requires StartsWith(t, i, space) && Blank(space)
    requires i + |space| < |t| ==> !Space(t[i + |space|])
    ensures SkipSpace(t, i) == i + |space|
    decreases |space|
  {
    if space != [] {
      assert t[i..i + |space|][0] == space[0];
      assert t[i + 1..i + |space|] == t[i..i + |space|][1..] == space[1..];
      SkipsBlank(t, i + 1, space[1..]);
    }
  }

  /** The closing quote is found, whatever escapes come before it. */
  lemma {:induction false} FindsQuote(t: Text, i: nat, chars: seq<Spelled>)
    requires StartsWith(t, i, Spell(chars) + [QUOTE]) && forall c :: c in chars ==> SpelledOk(c)
    ensures StringEnd(t, i) == Some(i + |Spell(chars)| + 1)
    decreases |chars|
  {
    hide SpellUnit, StartsWith;
    if chars == [] {
      assert Spell(chars) + [QUOTE] == [QUOTE];
      StartsUnit(t, i, QUOTE);
    } else {
      var c := chars[0];
      var first, rest := SpellUnit(c), Spell(chars[1..]);
      assert c in chars && Spell(chars) + [QUOTE] == first + (rest + [QUOTE]);
      StartsSplit(t, i, first, rest + [QUOTE]);
      FindsQuote(t, i + |first|, chars[1..]);
      SkipsSpelled(t, i, c);
    }
  }

  lemma SkipsSpelled(t: Text, i: nat, c: Spelled)
    requires StartsWith(t, i, SpellUnit(c)) && SpelledOk(c)
    ensures StringEnd(t, i) == StringEnd(t, i + |SpellUnit(c)|)
  {
    hide HexUnit, ShortUnit;
    match c
    case Verbatim(u) => StartsUnit(t, i, u);
    case Short(letter) => SkipsEscape(t, i, letter, []);
    case Hex(d) => SkipsHex(t, i, d);
  }

  lemma SkipsEscape(t: Text, i: nat, letter: Unit, more: Text)
    requires StartsWith(t, i, [BACKSLASH, letter] + more)
    ensures StringEnd(t, i) == StringEnd(t, i + 2) && StartsWith(t, i + 2, more)
  {
    hide StartsWith;
    assert [BACKSLASH, letter] + more == [BACKSLASH] + ([letter] + more);
    StartsSplit(t, i, [BACKSLASH], [letter] + more);
    StartsSplit(t, i + 1, [letter], more);
    StartsUnit(t, i, BACKSLASH);
  }

  lemma SkipsHex(t: Text, i: nat, d: Text)
    requires StartsWith(t, i, [BACKSLASH, 117] + d) && |d| == 4 && HexUnit(d).Some?
    ensures StringEnd(t, i) == StringEnd(t, i + 6)
  {
    hide StringEnd;
    HexDigits(d);
    hide HexUnit, HexValue;
    SkipsEscape(t, i, 117, d);
    var hex := t[i + 2..i + 6];
    assert hex[0] == t[i + 2] && hex[1] == t[i + 3] && hex[2] == t[i + 4] && hex[3] == t[i + 5];
    PlainUnit(t, i + 2);
    PlainUnit(t, i + 3);
    PlainUnit(t, i + 4);
    PlainUnit(t, i + 5);
  }

  lemma HexDigits(d: Text)
    requires |d| == 4 && HexUnit(d).Some?
    ensures HexValue(d[0]).Some? && HexValue(d[1]).Some? && HexValue(d[2]).Some? && HexValue(d[3]).Some?
  {
  }

  /** A hexadecimal digit neither ends nor escapes. */
  lemma PlainUnit(t: Text, i: nat)
    requires i < |t| && HexValue(t[i]).Some?
    ensures StringEnd(t, i) == StringEnd(t, i + 1)
  {
  }

  /** Unescaping inverts every spelling. */
  lemma {:induction false} UnescapeSpell(chars: seq<Spelled>)
    requires forall c :: c in chars ==> SpelledOk(c)
    ensures Unescape(Spell(chars)) == Some(Units(chars))
  {
    if chars != [] {
      var c, rest := chars[0], Spell(chars[1..]);
      UnescapeSpell(chars[1..]);
      var s := SpellUnit(c) + rest;
      assert s[|SpellUnit(c)|..] == rest;
      assert c in chars;
      if c.Hex? { assert s[2..6] == c.digits && ShortUnit(117).None?; }
    }
  }

  lemma ScansString(t: Text, i: nat, chars: seq<Spelled>)
    requires StartsWith(t, i, Quoted(chars)) && forall c :: c in chars ==> SpelledOk(c)
    ensures Sees(t, i, QUOTE) && ScanString(t, i) == Some(Token(i + |Quoted(chars)|, Units(chars)))
  {
    hide Unescape, StringEnd, Spell, Units;
    StartsSplit(t, i, [QUOTE], Spell(chars) + [QUOTE]);
    StartsUnit(t, i, QUOTE);
    FindsQuote(t, i + 1, chars);
    StartsSplit(t, i + 1, Spell(chars), [QUOTE]);
    UnescapeSpell(chars);
  }

  /** What may follow a value without becoming part of it. */
  predicate Ends(t: Text, i: nat) {
    i < |t| ==> Space(t[i]) || t[i] == COMMA || t[i] == CLOSE_BRACKET || t[i] == CLOSE_BRACE
  }

  lemma {:induction false} FindsTokenEnd(t: Text, i: nat, digits: Text)
    requires StartsWith(t, i, digits) && Ends(t, i + |digits|) && forall k :: 0 <= k < |digits| ==> Digit(digits[k]) || digits[k] == MINUS
    ensures TokenEnd(t, i) == i + |digits|
    decreases |digits|
  {
    if digits != [] {
      assert t[i..i + |digits|][0] == digits[0];
      assert t[i + 1..i + |digits|] == t[i..i + |digits|][1..] == digits[1..];
      FindsTokenEnd(t, i + 1, digits[1..]);
    }
  }

  lemma ScansNumber(t: Text, i: nat, digits: Text)
    requires StartsWith(t, i, digits) && IntegerToken(digits) && Ends(t, i + |digits|)
    ensures ScanInteger(t, i) == Some(i + |digits|)
    ensures i < |t| && (Digit(t[i]) || t[i] == MINUS)
  {
    assert t[i..i + |digits|][0] == digits[0];
    assert forall k :: 0 <= k < |digits| ==> Digit(digits[k]) || digits[k] == MINUS by {
      if !Digits(digits) { assert forall k :: 1 <= k < |digits| ==> digits[k] == digits[1..][k - 1]; }
    }
    FindsTokenEnd(t, i, digits);
  }

  /** White space, then something that is not. */
  lemma SkipsTo(t: Text, i: nat, space: Text, rest: Text)
    requires StartsWith(t, i, space + rest) && Blank(space) && rest != [] && !Space(rest[0])
    ensures SkipSpace(t, i) == i + |space| && StartsWith(t, i + |space|, rest) && Sees(t, i + |space|, rest[0])
  {
    StartsSplit(t, i, space, rest);
    assert rest == [rest[0]] + rest[1..];
    StartsSplit(t, i + |space|, [rest[0]], rest[1..]);
    StartsUnit(t, i + |space|, rest[0]);
    SkipsBlank(t, i, space);
  }

  /** White space, then a unit that is not. */
  lemma SkipsToUnit(t: Text, i: nat, space: Text, u: Unit, more: Text)
    requires StartsWith(t, i, space + ([u] + more)) && Blank(space) && !Space(u)
    ensures SkipSpace(t, i) == i + |space| && Sees(t, i + |space|, u) && StartsWith(t, i + |space| + 1, more)
  {
    StartsSplit(t, i, space, [u] + more);
    StartsSplit(t, i + |space|, [u], more);
    SkipsTo(t, i, space, [u] + more);
  }

  /** White space, then a unit that ends a value. */
  lemma EndsAt(t: Text, i: nat, space: Text, u: Unit, more: Text)
    requires StartsWith(t, i, space + ([u] + more)) && Blank(space)
    requires u == COMMA || u == CLOSE_BRACKET || u == CLOSE_BRACE
    ensures Ends(t, i)
  {
    var all := space + ([u] + more);
    assert all == [all[0]] + all[1..];
    StartsSplit(t, i, [all[0]], all[1..]);
    StartsUnit(t, i, all[0]);
  }

  /** White space, then a document. */
  lemma SkipsToDoc(t: Text, i: nat, space: Text, d: Doc, more: Text)
    requires StartsWith(t, i, space + (TextOf(d) + more)) && Blank(space) && Valid(d)
    ensures SkipSpace(t, i) == i + |space| && StartsWith(t, i + |space|, TextOf(d) + more)
  {
    hide TextOf, SkipSpace, Valid;
    FirstUnit(d);
    SkipsTo(t, i, space, TextOf(d) + more);
  }

  lemma FirstUnit(d: Doc)
    requires Valid(d)
    ensures TextOf(d) != [] && !Space(TextOf(d)[0])
  {
  }

  // ---- The main result ----

  predicate Within(t: Tree, depth: nat) {
    depth + Depth(t) <= MAX_JSON_DEPTH + 1 && Tidy(t)
  }

  predicate ItemsWithin(items: Trees, depth: nat, before: nat) {
    depth + DepthOfItems(items) <= MAX_JSON_DEPTH && TidyItems(items) && before + Count(items) <= MAX_ARRAY_ITEMS
  }

  predicate MembersWithin(members: Members, depth: nat, keys: set<Text>) {
    depth + DepthOfMembers(members) <= MAX_JSON_DEPTH && TidyMembers(members) && KeySet(members) !! keys
  }

  lemma ItemsWithinStep(head: Tree, tail: Trees, depth: nat, n: nat)
    ensures ItemsWithin(Trees(head, tail), depth, n) <==>
              n + 1 <= MAX_ARRAY_ITEMS && Within(head, depth + 1) && (tail.NoTrees? || ItemsWithin(tail, depth, n + 1))
  {
    DeepEnough(head);
    var all := Trees(head, tail);
    assert DepthOfItems(all) == Max(Depth(head), DepthOfItems(tail)) && Count(all) == 1 + Count(tail);
    assert TidyItems(all) <==> Tidy(head) && TidyItems(tail);
  }

  lemma MembersWithinStep(key: Text, value: Tree, tail: Members, depth: nat, keys: set<Text>)
    ensures MembersWithin(Member(key, value, tail), depth, keys) <==>
              key !in keys && Within(value, depth + 1) && (tail.NoMembers? || MembersWithin(tail, depth, keys + {key}))
  {
    DeepEnough(value);
    var all := Member(key, value, tail);
    assert DepthOfMembers(all) == Max(Depth(value), DepthOfMembers(tail)) && KeySet(all) == {key} + KeySet(tail);
    assert TidyMembers(all) <==> Tidy(value) && key !in KeySet(tail) && TidyMembers(tail);
    assert KeySet(tail) !! keys + {key} <==> key !in KeySet(tail) && KeySet(tail) !! keys;
  }

  lemma WithinDepth(t: Tree, depth: nat)
    ensures depth > MAX_JSON_DEPTH ==> !Within(t, depth)
    ensures depth <= MAX_JSON_DEPTH ==>
              (Within(t, depth) <==>
                 match t
                 case Arr(items) => items.NoTrees? || ItemsWithin(items, depth, 0)
                 case Obj(members) => members.NoMembers? || MembersWithin(members, depth, {})
                 case _ => true)
  {
    DeepEnough(t);
  }

  /** The verdict on something that ends at `end`. */
  function Verdict(ok: bool, end: nat): Option<nat> {
    if ok then Some(end) else None
  }

  lemma {:induction false} ScansDoc(d: Doc, t: Text, i: nat, depth: nat)
    requires Valid(d) && StartsWith(t, i, TextOf(d)) && Ends(t, i + |TextOf(d)|)
    ensures ScanValue(t, i, depth) == Verdict(Within(Meaning(d), depth), i + |TextOf(d)|)
    decreases d, 0
  {
    hide StartsWith, SkipSpace, ScanString, ScanInteger, ScanObject, ScanArray, Quoted, Units, IntegerToken;
    hide Within, ItemsWithin, MembersWithin, Ends;
    WithinDepth(Meaning(d), depth);
    if depth <= MAX_JSON_DEPTH {
      match d
      case WordDoc(w) => ScansWord(w, t, i, depth);
      case NumberDoc(digits) => ScansNumberValue(digits, t, i, depth);
      case StrDoc(chars) => ScansString(t, i, chars);
      case ArrDoc(space, items) =>
        StartsSplit(t, i, [OPEN_BRACKET], space + TextOfItems(items));
        StartsUnit(t, i, OPEN_BRACKET);
        ScansArray(space, items, t, i, depth);
      case ObjDoc(space, members) =>
        StartsSplit(t, i, [OPEN_BRACE], space + TextOfMembers(members));
        StartsUnit(t, i, OPEN_BRACE);
        ScansObject(space, members, t, i, depth);
    }
  }

  lemma DeepEnough(t: Tree)
    ensures Depth(t) >= 1
  {
  }

  lemma ScansNumberValue(digits: Text, t: Text, i: nat, depth: nat)
    requires IntegerToken(digits) && StartsWith(t, i, digits) && Ends(t, i + |digits|) && depth <= MAX_JSON_DEPTH
    ensures ScanValue(t, i, depth) == Some(i + |digits|)
  {
    ScansNumber(t, i, digits);
    assert i + 4 <= |t| ==> t[i..i + 4][0] == t[i];
    assert i + 5 <= |t| ==> t[i..i + 5][0] == t[i];
  }

  lemma ScansWord(w: Text, t: Text, i: nat, depth: nat)
    requires (w == NULL_WORD || w == TRUE_WORD || w == FALSE_WORD) && StartsWith(t, i, w) && depth <= MAX_JSON_DEPTH
    ensures ScanValue(t, i, depth) == Some(i + |w|)
  {
    assert w == [w[0]] + w[1..];
    StartsSplit(t, i, [w[0]], w[1..]);
    StartsUnit(t, i, w[0]);
    assert t[i..i + 4][0] == t[i];
    assert i + 5 <= |t| ==> t[i..i + 5][0] == t[i];
  }

  lemma {:induction false} ScansArray(space: Text, items: ItemDocs, t: Text, i: nat, depth: nat)
    requires Blank(space) && ValidItems(items) && StartsWith(t, i + 1, space + TextOfItems(items)) && i < |t|
    ensures ScanArray(t, i, depth) ==
              Verdict(ItemsWithin(MeaningOfItems(items), depth, 0) || items.NoItems?, i + 1 + |space| + |TextOfItems(items)|)
    decreases items, 2
  {
    hide TextOf, SkipSpace, StartsWith, ScanItems, ItemsWithin;
    if items.NoItems? {
      SkipsTo(t, i + 1, space, [CLOSE_BRACKET]);
    } else {
      FirstItem(items);
      SkipsTo(t, i + 1, space, TextOfItems(items));
      ScansItems(items, t, i + 1 + |space|, depth, 0);
    }
  }

  /** A value does not begin like the end of an array or object. */
  lemma NotClosing(d: Doc)
    requires Valid(d)
    ensures TextOf(d) != [] && TextOf(d)[0] != CLOSE_BRACKET && TextOf(d)[0] != CLOSE_BRACE
  {
  }

  lemma {:induction false} ScansItems(items: ItemDocs, t: Text, i: nat, depth: nat, n: nat)
    requires items.Item? && ValidItems(items) && StartsWith(t, i, TextOfItems(items))
    ensures ScanItems(t, i, depth, n) ==
              Verdict(ItemsWithin(MeaningOfItems(items), depth, n), i + |TextOfItems(items)|)
    decreases items, 1
  {
    hide StartsWith, SkipSpace, TextOf, TextOfItems, Ends, ItemsWithin, Within, ScanValue;
    ItemsWithinStep(Meaning(items.value), MeaningOfItems(items.rest), depth, n);
    var k := i + |TextOf(items.value)|;
    ItemLayout(items, t, i);
    ScansDoc(items.value, t, i, depth + 1);
    if items.rest.Item? {
      ScansItems(items.rest, t, k + |items.before| + 1 + |items.after|, depth, n + 1);
    }
  }

  /** Where the parts of an item are. */
  lemma ItemLayout(items: ItemDocs, t: Text, i: nat)
    requires items.Item? && ValidItems(items) && StartsWith(t, i, TextOfItems(items))
    ensures var k := i + |TextOf(items.value)|;
            var end := k + |items.before|;
            && StartsWith(t, i, TextOf(items.value)) && k <= |t| && Ends(t, k) && SkipSpace(t, k) == end
            && if items.rest.NoItems? then Sees(t, end, CLOSE_BRACKET) && i + |TextOfItems(items)| == end + 1
               else var next := end + 1 + |items.after|;
                    && Sees(t, end, COMMA) && SkipSpace(t, end + 1) == next && StartsWith(t, next, TextOfItems(items.rest))
                    && i + |TextOfItems(items)| == next + |TextOfItems(items.rest)|
  {
    hide SkipSpace, TextOf, Ends, StartsWith, Space, Blank, Sees;
    var rest := items.rest;
    if rest.NoItems? {
      assert [CLOSE_BRACKET] == [CLOSE_BRACKET] + [];
      Layout(t, i, TextOf(items.value), items.before, CLOSE_BRACKET, []);
    } else {
      Layout(t, i, TextOf(items.value), items.before, COMMA, items.after + TextOfItems(rest));
      FirstItem(rest);
      SkipsTo(t, i + |TextOf(items.value)| + |items.before| + 1, items.after, TextOfItems(rest));
    }
  }

  /** A value, white space, and the unit that ends the value. */
  lemma Layout(t: Text, i: nat, value: Text, before: Text, u: Unit, more: Text)
    requires StartsWith(t, i, value + (before + ([u] + more))) && Blank(before)
    requires u == COMMA || u == CLOSE_BRACKET || u == CLOSE_BRACE
    ensures var k := i + |value|;
            && StartsWith(t, i, value) && k <= |t| && Ends(t, k) && SkipSpace(t, k) == k + |before|
            && Sees(t, k + |before|, u) && StartsWith(t, k + |before| + 1, more)
  {
    hide StartsWith, SkipSpace, Ends, Space, Blank, Sees;
    StartsSplit(t, i, value, before + ([u] + more));
    EndsAt(t, i + |value|, before, u, more);
    Separators();
    SkipsToUnit(t, i + |value|, before, u, more);
  }

  lemma Separators()
    ensures !Space(COMMA) && !Space(COLON) && !Space(CLOSE_BRACKET) && !Space(CLOSE_BRACE) && !Space(QUOTE)
  {
  }

  lemma FirstItem(items: ItemDocs)
    requires items.Item? && ValidItems(items)
    ensures TextOfItems(items) != [] && !Space(TextOfItems(items)[0]) && TextOfItems(items)[0] != CLOSE_BRACKET
  {
    FirstUnit(items.value);
    NotClosing(items.value);
  }

  lemma {:induction false} ScansObject(space: Text, members: MemberDocs, t: Text, i: nat, depth: nat)
    requires Blank(space) && ValidMembers(members) && StartsWith(t, i + 1, space + TextOfMembers(members)) && i < |t|
    ensures ScanObject(t, i, depth) ==
              Verdict(MembersWithin(MeaningOfMembers(members), depth, {}) || members.NoMembersDoc?, i + 1 + |space| + |TextOfMembers(members)|)
    decreases members, 2
  {
    hide TextOf, SkipSpace, StartsWith, ScanMembers, Quoted, MembersWithin;
    if members.NoMembersDoc? {
      SkipsTo(t, i + 1, space, [CLOSE_BRACE]);
    } else {
      FirstMember(members);
      SkipsTo(t, i + 1, space, TextOfMembers(members));
      ScansMembers(members, t, i + 1 + |space|, depth, {});
    }
  }

  lemma FirstMember(members: MemberDocs)
    requires members.MemberDoc?
    ensures TextOfMembers(members) != [] && TextOfMembers(members)[0] == QUOTE
  {
  }

  /** Where the parts of a member are: its key, and its value from `c` on. */
  lemma MemberLayout(members: MemberDocs, t: Text, i: nat)
    requires members.MemberDoc? && ValidMembers(members) && StartsWith(t, i, TextOfMembers(members))
    ensures var a := i + |Quoted(members.key)|;
            var colon := a + |members.beforeColon|;
            var c := colon + 1 + |members.afterColon|;
            && Sees(t, i, QUOTE) && ScanString(t, i) == Some(Token(a, Units(members.key))) && a <= |t|
            && SkipSpace(t, a) == colon && Sees(t, colon, COLON) && SkipSpace(t, colon + 1) == c
            && StartsWith(t, c, TextOf(members.value) + (members.before + MemberTail(members)))
            && |TextOfMembers(members)| == c - i + |TextOf(members.value) + (members.before + MemberTail(members))|
  {
    hide SkipSpace, TextOf, StartsWith, Quoted, ScanString, Units, Space, Blank, Sees;
    var fromValue := TextOf(members.value) + (members.before + MemberTail(members));
    var fromColon := [COLON] + (members.afterColon + fromValue);
    assert TextOfMembers(members) == Quoted(members.key) + (members.beforeColon + fromColon);
    hide TextOfMembers, MemberTail;
    StartsSplit(t, i, Quoted(members.key), members.beforeColon + fromColon);
    ScansString(t, i, members.key);
    var a := i + |Quoted(members.key)|;
    Separators();
    SkipsToUnit(t, a, members.beforeColon, COLON, members.afterColon + fromValue);
    SkipsToDoc(t, a + |members.beforeColon| + 1, members.afterColon, members.value, members.before + MemberTail(members));
  }

  /** What follows the value of a member and the white space after it. */
  function MemberTail(members: MemberDocs): Text
    requires members.MemberDoc?
  {
    if members.rest.NoMembersDoc? then [CLOSE_BRACE] else [COMMA] + (members.after + TextOfMembers(members.rest))
  }

  lemma TailLength(members: MemberDocs)
    requires members.MemberDoc?
    ensures |MemberTail(members)| ==
              if members.rest.NoMembersDoc? then 1 else 1 + |members.after| + |TextOfMembers(members.rest)|
  {
  }

  /** Where the parts after the value of a member are. */
  lemma ValueLayout(members: MemberDocs, t: Text, c: nat)
    requires members.MemberDoc? && ValidMembers(members)
    requires StartsWith(t, c, TextOf(members.value) + (members.before + MemberTail(members)))
    ensures var k := c + |TextOf(members.value)|;
            var end := k + |members.before|;
            && StartsWith(t, c, TextOf(members.value)) && k <= |t| && Ends(t, k) && SkipSpace(t, k) == end
            && if members.rest.NoMembersDoc? then Sees(t, end, CLOSE_BRACE)
               else var next := end + 1 + |members.after|;
                    && Sees(t, end, COMMA) && SkipSpace(t, end + 1) == next && StartsWith(t, next, TextOfMembers(members.rest))
  {
    hide SkipSpace, TextOf, Ends, StartsWith, TextOfMembers, Space, Blank, Sees, SpelledOk;
    if members.rest.NoMembersDoc? {
      assert [CLOSE_BRACE] == [CLOSE_BRACE] + [];
      Layout(t, c, TextOf(members.value), members.before, CLOSE_BRACE, []);
    } else {
      Layout(t, c, TextOf(members.value), members.before, COMMA, members.after + TextOfMembers(members.rest));
      FirstMember(members.rest);
      Separators();
      SkipsTo(t, c + |TextOf(members.value)| + |members.before| + 1, members.after, TextOfMembers(members.rest));
    }
  }

  lemma {:induction false} ScansMembers(members: MemberDocs, t: Text, i: nat, depth: nat, keys: set<Text>)
    requires members.MemberDoc? && ValidMembers(members) && StartsWith(t, i, TextOfMembers(members))
    ensures ScanMembers(t, i, depth, keys) ==
              Verdict(MembersWithin(MeaningOfMembers(members), depth, keys), i + |TextOfMembers(members)|)
    decreases members, 1
  {
    hide StartsWith, SkipSpace, ScanString, TextOf, TextOfMembers, MemberTail, Ends, Quoted, Units, MembersWithin, Within, ScanValue;
    MembersWithinStep(Units(members.key), Meaning(members.value), MeaningOfMembers(members.rest), depth, keys);
    var c := i + |Quoted(members.key)| + |members.beforeColon| + 1 + |members.afterColon|;
    MemberLayout(members, t, i);
    ValueLayout(members, t, c);
    TailLength(members);
    ScansDoc(members.value, t, c, depth + 1);
    if members.rest.MemberDoc? {
      var next := c + |TextOf(members.value)| + |members.before| + 1 + |members.after|;
      ScansMembers(members.rest, t, next, depth, keys + {Units(members.key)});
    }
  }

  /**
   Every spelling of a JSON tree is accepted exactly when the tree is at most sixteen levels deep, no
   array has more than 256 items and no object has two equal decoded keys. In particular the
   verdict does not depend on white space or escapes.
   */
  lemma AcceptsExactly(space: Text, d: Doc, after: Text)
    requires Valid(d) && Blank(space) && Blank(after)
    ensures Accepts(space + (TextOf(d) + after)) <==> Depth(Meaning(d)) <= MAX_JSON_DEPTH && Tidy(Meaning(d))
  {
    hide TextOf, SkipSpace, ScanValue, Depth, Tidy;
    var t := space + (TextOf(d) + after);
    assert t[0..|t|] == t;
    FirstUnit(d);
    SkipsTo(t, 0, space, TextOf(d) + after);
    StartsSplit(t, |space|, TextOf(d), after);
    var end := |space| + |TextOf(d)|;
    assert after != [] ==> t[end] == after[0];
    ScansDoc(d, t, |space|, 1);
    SkipsBlank(t, end, after);
  }

  // ---- What is accepted is the spelling of a tree ----

  lemma Slices(t: Text, a: nat, b: nat, c: nat)
    requires a <= b <= c <= |t|
    ensures t[a..c] == t[a..b] + t[b..c]
  {
  }

  lemma UnitSlice(t: Text, i: nat, u: Unit)
    requires Sees(t, i, u)
    ensures t[i..i + 1] == [u]
  {
  }

  lemma {:induction false} SkippedIsBlank(t: Text, i: nat)
    requires i <= |t|
    ensures Blank(t[i..SkipSpace(t, i)])
    decreases |t| - i
  {
    if i < |t| && Space(t[i]) {
      SkippedIsBlank(t, i + 1);
      Slices(t, i, i + 1, SkipSpace(t, i));
    }
  }

  /** Everything that unescapes is the spelling of some units. */
  lemma {:induction false} UnescapedIsSpelled(s: Text) returns (chars: seq<Spelled>)
    requires Unescape(s).Some?
    ensures Spell(chars) == s && forall c :: c in chars ==> SpelledOk(c)
    decreases |s|
  {
    if s == [] { return []; }
    var c := FirstSpelled(s);
    hide Unescape, SpellUnit, SpelledOk;
    var n := |SpellUnit(c)|;
    var rest := UnescapedIsSpelled(s[n..]);
    chars := [c] + rest;
    assert chars[1..] == rest;
    assert s == s[..n] + s[n..];
  }

  lemma FirstSpelled(s: Text) returns (c: Spelled)
    requires s != [] && Unescape(s).Some?
    ensures SpelledOk(c) && 0 < |SpellUnit(c)| <= |s| && SpellUnit(c) == s[..|SpellUnit(c)|] && Unescape(s[|SpellUnit(c)|..]).Some?
  {
    hide HexUnit, ShortUnit;
    c := if s[0] != BACKSLASH then Verbatim(s[0]) else if ShortUnit(s[1]).Some? then Short(s[1]) else Hex(s[2..6]);
  }

  lemma StringIsSpelled(t: Text, i: nat) returns (chars: seq<Spelled>)
    requires Sees(t, i, QUOTE) && ScanString(t, i).Some?
    ensures t[i..ScanString(t, i).value.end] == Quoted(chars) && forall c :: c in chars ==> SpelledOk(c)
  {
    hide Unescape, Spell, SpelledOk;
    var end := ScanString(t, i).value.end;
    EndsWithQuote(t, i + 1);
    hide StringEnd;
    chars := UnescapedIsSpelled(t[i + 1..end - 1]);
    UnitSlice(t, i, QUOTE);
    UnitSlice(t, end - 1, QUOTE);
    Slices(t, i, i + 1, end);
    Slices(t, i + 1, end - 1, end);
  }

  lemma {:induction false} EndsWithQuote(t: Text, i: nat)
    requires StringEnd(t, i).Some?
    ensures t[StringEnd(t, i).value - 1] == QUOTE
    decreases |t| - i
  {
    if t[i] != QUOTE { EndsWithQuote(t, if t[i] == BACKSLASH then i + 2 else i + 1); }
  }

  lemma {:induction false} ValueIsSpelled(t: Text, i: nat, depth: nat) returns (d: Doc)
    requires i <= |t| && ScanValue(t, i, depth).Some?
    ensures Valid(d) && t[i..ScanValue(t, i, depth).value] == TextOf(d)
    decreases |t| - i, 2
  {
    hide SkipSpace, ScanString, ScanItems, ScanMembers, IntegerToken, TokenEnd, SpelledOk, Quoted;
    if Sees(t, i, OPEN_BRACE) {
      d := ObjectIsSpelled(t, i, depth);
    } else if Sees(t, i, OPEN_BRACKET) {
      d := ArrayIsSpelled(t, i, depth);
    } else if Sees(t, i, QUOTE) {
      var chars := StringIsSpelled(t, i);
      d := StrDoc(chars);
    } else if StartsWith(t, i, TRUE_WORD) {
      d := WordDoc(TRUE_WORD);
    } else if StartsWith(t, i, FALSE_WORD) {
      d := WordDoc(FALSE_WORD);
    } else if StartsWith(t, i, NULL_WORD) {
      d := WordDoc(NULL_WORD);
    } else {
      d := NumberDoc(t[i..TokenEnd(t, i)]);
    }
  }

  lemma {:induction false} ArrayIsSpelled(t: Text, i: nat, depth: nat) returns (d: Doc)
    requires Sees(t, i, OPEN_BRACKET) && ScanArray(t, i, depth).Some?
    ensures Valid(d) && t[i..ScanArray(t, i, depth).value] == TextOf(d)
    decreases |t| - i, 1
  {
    hide SkipSpace, ScanItems, Blank;
    var k, end := SkipSpace(t, i + 1), ScanArray(t, i, depth).value;
    SkippedIsBlank(t, i + 1);
    UnitSlice(t, i, OPEN_BRACKET);
    Slices(t, i, i + 1, end);
    Slices(t, i + 1, k, end);
    var items := NoItems;
    if Sees(t, k, CLOSE_BRACKET) {
      UnitSlice(t, k, CLOSE_BRACKET);
    } else {
      items := ItemsAreSpelled(t, k, depth, 0);
    }
    d := ArrDoc(t[i + 1..k], items);
  }

  lemma {:induction false} ItemsAreSpelled(t: Text, i: nat, depth: nat, n: nat) returns (items: ItemDocs)
    requires i <= |t| && ScanItems(t, i, depth, n).Some?
    ensures items.Item? && ValidItems(items) && t[i..ScanItems(t, i, depth, n).value] == TextOfItems(items)
    decreases |t| - i, 3
  {
    hide *;
    ItemSteps(t, i, depth, n);
    var value := ValueIsSpelled(t, i, depth + 1);
    var a, last := ScanValue(t, i, depth + 1).value, ScanItems(t, i, depth, n).value;
    var end := SkipSpace(t, a);
    SkippedIsBlank(t, a);
    Slices(t, i, a, last);
    Slices(t, a, end, last);
    if Sees(t, end, CLOSE_BRACKET) {
      UnitSlice(t, end, CLOSE_BRACKET);
      items := Item(value, t[a..end], [], NoItems);
      LastItem(items);
    } else {
      var next := SkipSpace(t, end + 1);
      SkippedIsBlank(t, end + 1);
      UnitSlice(t, end, COMMA);
      Slices(t, end, end + 1, last);
      Slices(t, end + 1, next, last);
      var rest := ItemsAreSpelled(t, next, depth, n + 1);
      items := Item(value, t[a..end], t[end + 1..next], rest);
      OneMoreItem(items);
    }
  }

  /** How the scan of an item goes on. */
  lemma ItemSteps(t: Text, i: nat, depth: nat, n: nat)
    requires i <= |t| && ScanItems(t, i, depth, n).Some?
    ensures ScanValue(t, i, depth + 1).Some?
    ensures var end := SkipSpace(t, ScanValue(t, i, depth + 1).value);
            if Sees(t, end, CLOSE_BRACKET) then ScanItems(t, i, depth, n) == Some(end + 1)
            else end < |t| && Sees(t, end, COMMA) && ScanItems(t, SkipSpace(t, end + 1), depth, n + 1) == ScanItems(t, i, depth, n)
  {
    hide SkipSpace, ScanValue;
  }

  lemma LastItem(m: ItemDocs)
    requires m.Item? && m.rest.NoItems? && m.after == [] && Valid(m.value) && Blank(m.before)
    ensures ValidItems(m) && TextOfItems(m) == TextOf(m.value) + (m.before + [CLOSE_BRACKET])
  {
    hide TextOf;
  }

  lemma OneMoreItem(m: ItemDocs)
    requires m.Item? && m.rest.Item? && Valid(m.value) && Blank(m.before) && Blank(m.after) && ValidItems(m.rest)
    ensures ValidItems(m) && TextOfItems(m) == TextOf(m.value) + (m.before + ([COMMA] + (m.after + TextOfItems(m.rest))))
  {
    hide TextOf;
  }

  lemma {:induction false} ObjectIsSpelled(t: Text, i: nat, depth: nat) returns (d: Doc)
    requires Sees(t, i, OPEN_BRACE) && ScanObject(t, i, depth).Some?
    ensures Valid(d) && t[i..ScanObject(t, i, depth).value] == TextOf(d)
    decreases |t| - i, 1
  {
    hide SkipSpace, ScanMembers, Blank;
    var k, end := SkipSpace(t, i + 1), ScanObject(t, i, depth).value;
    SkippedIsBlank(t, i + 1);
    UnitSlice(t, i, OPEN_BRACE);
    Slices(t, i, i + 1, end);
    Slices(t, i + 1, k, end);
    var members := NoMembersDoc;
    if Sees(t, k, CLOSE_BRACE) {
      UnitSlice(t, k, CLOSE_BRACE);
    } else {
      members := MembersAreSpelled(t, k, depth, {});
    }
    d := ObjDoc(t[i + 1..k], members);
  }

  lemma {:induction false} MembersAreSpelled(t: Text, i: nat, depth: nat, keys: set<Text>) returns (members: MemberDocs)
    requires i <= |t| && ScanMembers(t, i, depth, keys).Some?
    ensures members.MemberDoc? && ValidMembers(members) && t[i..ScanMembers(t, i, depth, keys).value] == TextOfMembers(members)
    decreases |t| - i, 1
  {
    hide *;
    var key, value := MemberIsSpelled(t, i, depth, keys);
    MemberSteps(t, i, depth, keys);
    var last := ScanMembers(t, i, depth, keys).value;
    var k := ScanString(t, i).value.end;
    var colon := SkipSpace(t, k);
    var v := SkipSpace(t, colon + 1);
    var a := ScanValue(t, v, depth + 1).value;
    var end := SkipSpace(t, a);
    SkippedIsBlank(t, a);
    Slices(t, i, a, last);
    Slices(t, a, end, last);
    if Sees(t, end, CLOSE_BRACE) {
      UnitSlice(t, end, CLOSE_BRACE);
      members := MemberDoc(key, t[k..colon], t[colon + 1..v], value, t[a..end], [], NoMembersDoc);
      LastMember(members);
    } else {
      var next := SkipSpace(t, end + 1);
      SkippedIsBlank(t, end + 1);
      UnitSlice(t, end, COMMA);
      Slices(t, end, end + 1, last);
      Slices(t, end + 1, next, last);
      var rest := MembersAreSpelled(t, next, depth, keys + {ScanString(t, i).value.value});
      members := MemberDoc(key, t[k..colon], t[colon + 1..v], value, t[a..end], t[end + 1..next], rest);
      OneMoreMember(members);
    }
  }

  /** How the scan of a member goes on. */
  lemma MemberSteps(t: Text, i: nat, depth: nat, keys: set<Text>)
    requires i <= |t| && ScanMembers(t, i, depth, keys).Some?
    ensures Sees(t, i, QUOTE) && ScanString(t, i).Some?
    ensures var k := ScanString(t, i).value.end;
            var colon := SkipSpace(t, k);
            && Sees(t, colon, COLON)
            && var v := SkipSpace(t, colon + 1);
               && ScanValue(t, v, depth + 1).Some?
               && var end := SkipSpace(t, ScanValue(t, v, depth + 1).value);
                  if Sees(t, end, CLOSE_BRACE) then ScanMembers(t, i, depth, keys) == Some(end + 1)
                  else Sees(t, end, COMMA) && ScanMembers(t, SkipSpace(t, end + 1), depth, keys + {ScanString(t, i).value.value})
                                              == ScanMembers(t, i, depth, keys)
  {
    hide SkipSpace, ScanValue, ScanString;
  }

  /** The key of a member, its value, and what is between them. */
  lemma {:induction false} MemberIsSpelled(t: Text, i: nat, depth: nat, keys: set<Text>) returns (key: seq<Spelled>, value: Doc)
    requires i <= |t| && ScanMembers(t, i, depth, keys).Some?
    ensures (forall c :: c in key ==> SpelledOk(c)) && Valid(value)
    ensures var k := ScanString(t, i).value.end;
            var colon := SkipSpace(t, k);
            var v := SkipSpace(t, colon + 1);
            && Blank(t[k..colon]) && Blank(t[colon + 1..v])
            && t[i..ScanValue(t, v, depth + 1).value] == HeadText(key, t[k..colon], t[colon + 1..v], TextOf(value))
    decreases |t| - i, 0
  {
    hide SkipSpace, ScanValue, ScanString, Blank, Valid, TextOf, Quoted, SpelledOk;
    key := StringIsSpelled(t, i);
    var k := ScanString(t, i).value.end;
    var colon := SkipSpace(t, k);
    var v := SkipSpace(t, colon + 1);
    var a := ScanValue(t, v, depth + 1).value;
    SkippedIsBlank(t, k);
    SkippedIsBlank(t, colon + 1);
    UnitSlice(t, colon, COLON);
    value := ValueIsSpelled(t, v, depth + 1);
    Slices(t, i, k, a);
    Slices(t, k, colon, a);
    Slices(t, colon, colon + 1, a);
    Slices(t, colon + 1, v, a);
  }

  function HeadText(key: seq<Spelled>, beforeColon: Text, afterColon: Text, value: Text): Text {
    Quoted(key) + (beforeColon + ([COLON] + (afterColon + value)))
  }

  lemma LastMember(m: MemberDocs)
    requires m.MemberDoc? && m.rest.NoMembersDoc? && m.after == []
    requires (forall c :: c in m.key ==> SpelledOk(c)) && Blank(m.beforeColon) && Blank(m.afterColon) && Valid(m.value) && Blank(m.before)
    ensures ValidMembers(m)
    ensures TextOfMembers(m) == HeadText(m.key, m.beforeColon, m.afterColon, TextOf(m.value)) + (m.before + [CLOSE_BRACE])
  {
    hide TextOf, Quoted;
  }

  lemma OneMoreMember(m: MemberDocs)
    requires m.MemberDoc? && m.rest.MemberDoc? && Blank(m.after) && ValidMembers(m.rest)
    requires (forall c :: c in m.key ==> SpelledOk(c)) && Blank(m.beforeColon) && Blank(m.afterColon) && Valid(m.value) && Blank(m.before)
    ensures ValidMembers(m)
    ensures TextOfMembers(m) == HeadText(m.key, m.beforeColon, m.afterColon, TextOf(m.value))
                                + (m.before + ([COMMA] + (m.after + TextOfMembers(m.rest))))
  {
    hide TextOf, Quoted;
    var tail := [COMMA] + (m.after + TextOfMembers(m.rest));
    assert TextOfMembers(m) == HeadText(m.key, m.beforeColon, m.afterColon, TextOf(m.value)) + (m.before + tail);
  }

  /** The text is a document between white space. */
  ghost predicate Spells(t: Text, d: Doc) {
    Valid(d) && exists space, after :: Blank(space) && Blank(after) && t == space + (TextOf(d) + after)
  }

  /**
   The scanner's language: it accepts a text exactly when the text spells a tree that is at most
   sixteen levels deep, has no array of more than 256 items, and no object that repeats a decoded key.
   */
  lemma Language(t: Text)
    ensures Accepts(t) <==> exists d :: Spells(t, d) && Depth(Meaning(d)) <= MAX_JSON_DEPTH && Tidy(Meaning(d))
  {
    hide TextOf, SkipSpace, ScanValue, Depth, Tidy, Valid, Blank;
    if Accepts(t) {
      var k := SkipSpace(t, 0);
      var end := ScanValue(t, k, 1).value;
      var d := ValueIsSpelled(t, k, 1);
      SkippedIsBlank(t, 0);
      SkippedIsBlank(t, end);
      Slices(t, 0, k, |t|);
      Slices(t, k, end, |t|);
      assert t[0..|t|] == t;
      assert t == t[0..k] + (TextOf(d) + t[end..|t|]);
      AcceptsExactly(t[0..k], d, t[end..|t|]);
      assert Spells(t, d);
    }
    forall d | Spells(t, d) ensures Accepts(t) <==> Depth(Meaning(d)) <= MAX_JSON_DEPTH && Tidy(Meaning(d)) {
      var space, after :| Blank(space) && Blank(after) && t == space + (TextOf(d) + after);
      AcceptsExactly(space, d, after);
    }
  }
}
