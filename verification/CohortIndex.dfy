/**
 The external cohort index: rows are spread over bucket files by growing prefixes of their
 cohort key until a bucket is small enough to be counted in memory.
 */
module CohortIndex {
  import opened Ordering

  datatype Entry = Entry(cohortKey: string, disposition: string)

  datatype Item = Item(cohortKey: string, count: nat, dispositions: map<string, nat>)

  const KEY_LENGTH := 64

  // ---- The simple form: group by cohort ----

  function CountOf(rows: seq<Entry>, key: string): nat {
    if rows == [] then 0
    else CountOf(rows[..|rows| - 1], key) + (if rows[|rows| - 1].cohortKey == key then 1 else 0)
  }

  /** The number of rows of the cohort with each disposition that occurs in it. */
  function Dispositions(rows: seq<Entry>, key: string): map<string, nat> {
    if rows == [] then map[]
    else
      var before, row := Dispositions(rows[..|rows| - 1], key), rows[|rows| - 1];
      if row.cohortKey != key then before
      else before[row.disposition := (if row.disposition in before then before[row.disposition] else 0) + 1]
  }

  function Grouped(rows: seq<Entry>, key: string): Item {
    Item(key, CountOf(rows, key), Dispositions(rows, key))
  }

  function Keys(rows: seq<Entry>): set<string> {
    set row | row in rows :: row.cohortKey
  }

  function ItemKeys(items: seq<Item>): seq<string> {
    seq(|items|, i requires 0 <= i < |items| => items[i].cohortKey)
  }

  /** One item per cohort, in the order of the keys, with the counts over all the rows. */
  ghost predicate IsIndexOf(items: seq<Item>, rows: seq<Entry>) {
    && Ascending(Less, ItemKeys(items)) && ToSet(ItemKeys(items)) == Keys(rows)
    && forall i :: 0 <= i < |items| ==> items[i] == Grouped(rows, items[i].cohortKey)
  }

  /** There is exactly one such index. */
  lemma IndexUnique(a: seq<Item>, b: seq<Item>, rows: seq<Entry>)
    requires IsIndexOf(a, rows) && IsIndexOf(b, rows)
    ensures a == b
  {
    StringsOrdered();
    AscendingUnique(Less, ItemKeys(a), ItemKeys(b));
    forall i | 0 <= i < |a| ensures a[i] == b[i] {
      assert ItemKeys(a)[i] == ItemKeys(b)[i];
    }
  }

  // ---- Prefix partition ----

  ghost predicate InBucket(rows: seq<Entry>, prefix: string) {
    forall row :: row in rows ==> |row.cohortKey| == KEY_LENGTH && prefix <= row.cohortKey
  }

  /** The rows whose key starts with the prefix, in order: the contents of a bucket file. */
  function Bucket(rows: seq<Entry>, prefix: string): seq<Entry> {
    if rows == [] then []
    else
      var before, row := Bucket(rows[..|rows| - 1], prefix), rows[|rows| - 1];
      if prefix <= row.cohortKey then before + [row] else before
  }

  lemma BucketAppend(rows: seq<Entry>, row: Entry, prefix: string)
    ensures Bucket(rows + [row], prefix) == if prefix <= row.cohortKey then Bucket(rows, prefix) + [row] else Bucket(rows, prefix)
  {
    assert (rows + [row])[..|rows|] == rows;
  }

  lemma {:induction false} BucketHolds(rows: seq<Entry>, prefix: string)
    ensures forall row :: row in Bucket(rows, prefix) <==> row in rows && prefix <= row.cohortKey
  {
    if rows != [] {
      var n := |rows| - 1;
      BucketHolds(rows[..n], prefix);
      assert rows == rows[..n] + [rows[n]];
    }
  }

  /** Counting a cohort in its bucket is counting it in all the rows. */
  lemma {:induction false} GroupedInBucket(rows: seq<Entry>, prefix: string, key: string)
    requires prefix <= key
    ensures Grouped(Bucket(rows, prefix), key) == Grouped(rows, key)
  {
    if rows != [] {
      var n := |rows| - 1;
      GroupedInBucket(rows[..n], prefix, key);
      var before := Bucket(rows[..n], prefix);
      assert (before + [rows[n]])[..|before|] == before;
    }
  }

  /** Counts a bucket in memory. */
  method Count(rows: seq<Entry>) returns (items: seq<Item>)
    ensures IsIndexOf(items, rows)
  {
    hide Less, Grouped, Keys, AggregateOk, IsIndexOf, AddTo;
    var aggregate: map<string, Item> := map[];
    assert rows[..0] == [];
    assert AggregateOk(aggregate, []) by { NothingAggregated(); }
    for k := 0 to |rows|
      invariant AggregateOk(aggregate, rows[..k])
    {
      var row := rows[k];
      assert rows[..k + 1] == rows[..k] + [row];
      AggregateStep(aggregate, rows[..k], row);
      var item := if row.cohortKey in aggregate then aggregate[row.cohortKey] else Item(row.cohortKey, 0, map[]);
      aggregate := aggregate[row.cohortKey := AddTo(item, row.disposition)];
    }
    assert rows[..|rows|] == rows;
    var sorted := SortStrings(aggregate.Keys);
    assert forall key :: key in sorted ==> key in ToSet(sorted);
    items := ItemsFor(aggregate, sorted);
    CountedIndex(aggregate, sorted, items, rows);
  }

  lemma NothingAggregated()
    ensures AggregateOk(map[], [])
  {
  }

  lemma CountedIndex(aggregate: map<string, Item>, sorted: seq<string>, items: seq<Item>, rows: seq<Entry>)
    requires AggregateOk(aggregate, rows) && Ascending(Less, sorted) && ToSet(sorted) == aggregate.Keys
    requires |items| == |sorted| && forall i :: 0 <= i < |sorted| && sorted[i] in aggregate ==> items[i] == aggregate[sorted[i]]
    ensures IsIndexOf(items, rows)
  {
    forall i | 0 <= i < |sorted| ensures items[i] == Grouped(rows, sorted[i]) { assert sorted[i] in ToSet(sorted); }
    assert ItemKeys(items) == sorted;
  }

  ghost predicate AggregateOk(aggregate: map<string, Item>, rows: seq<Entry>) {
    aggregate.Keys == Keys(rows) && forall key :: key in aggregate ==> aggregate[key] == Grouped(rows, key)
  }

  lemma AggregateStep(aggregate: map<string, Item>, rows: seq<Entry>, row: Entry)
    requires AggregateOk(aggregate, rows)
    ensures var item := if row.cohortKey in aggregate then aggregate[row.cohortKey] else Item(row.cohortKey, 0, map[]);
            AggregateOk(aggregate[row.cohortKey := AddTo(item, row.disposition)], rows + [row])
  {
    hide CountOf, Dispositions, AddTo;
    if row.cohortKey !in aggregate { NoRows(rows, row.cohortKey); }
    forall key ensures Grouped(rows + [row], key) ==
                         if row.cohortKey == key then AddTo(Grouped(rows, key), row.disposition) else Grouped(rows, key) {
      GroupedAppend(rows, row, key);
    }
  }

  function ItemsFor(aggregate: map<string, Item>, sorted: seq<string>): (items: seq<Item>)
    requires forall key :: key in sorted ==> key in aggregate
    ensures |items| == |sorted| && forall i :: 0 <= i < |sorted| ==> items[i] == aggregate[sorted[i]]
  {
    seq(|sorted|, i requires 0 <= i < |sorted| => aggregate[sorted[i]])
  }

  function AddTo(item: Item, disposition: string): Item {
    var n := if disposition in item.dispositions then item.dispositions[disposition] else 0;
    Item(item.cohortKey, item.count + 1, item.dispositions[disposition := n + 1])
  }

  lemma GroupedAppend(rows: seq<Entry>, row: Entry, key: string)
    ensures Grouped(rows + [row], key) ==
              if row.cohortKey == key then AddTo(Grouped(rows, key), row.disposition) else Grouped(rows, key)
  {
    assert (rows + [row])[..|rows|] == rows;
  }

  lemma {:induction false} NoRows(rows: seq<Entry>, key: string)
    requires key !in Keys(rows)
    ensures Grouped(rows, key) == Item(key, 0, map[])
  {
    if rows != [] {
      var n := |rows| - 1;
      assert rows == rows[..n] + [rows[n]] && rows[n].cohortKey in Keys(rows);
      NoRows(rows[..n], key);
    }
  }

  /** Spreads rows over bucket files named by a longer prefix. */
  method Spread(rows: seq<Entry>, length: nat) returns (children: map<string, seq<Entry>>)
    requires length <= KEY_LENGTH && forall row :: row in rows ==> |row.cohortKey| == KEY_LENGTH
    ensures SpreadOk(children, rows, length)
  {
    children := map[];
    for k := 0 to |rows|
      invariant SpreadOk(children, rows[..k], length)
    {
      var row := rows[k];
      var p := row.cohortKey[..length];
      assert rows[..k + 1] == rows[..k] + [row];
      SpreadStep(children, rows[..k], row, length);
      children := children[p := (if p in children then children[p] else []) + [row]];
    }
    assert rows[..|rows|] == rows;
  }

  ghost predicate SpreadOk(children: map<string, seq<Entry>>, rows: seq<Entry>, length: nat) {
    && (forall row :: row in rows ==> length <= |row.cohortKey|)
    && children.Keys == (set row | row in rows && length <= |row.cohortKey| :: row.cohortKey[..length])
    && forall p :: p in children ==> |p| == length && children[p] == Bucket(rows, p)
  }

  lemma SpreadStep(children: map<string, seq<Entry>>, rows: seq<Entry>, row: Entry, length: nat)
    requires SpreadOk(children, rows, length) && length <= |row.cohortKey|
    ensures var p := row.cohortKey[..length];
            SpreadOk(children[p := (if p in children then children[p] else []) + [row]], rows + [row], length)
  {
    hide Bucket;
    var p := row.cohortKey[..length];
    if p !in children {
      forall earlier | earlier in rows ensures !(p <= earlier.cohortKey) { PrefixIs(earlier.cohortKey, p); }
      EmptyBucket(rows, p);
    }
    var after := children[p := (if p in children then children[p] else []) + [row]];
    forall q | q in after ensures |q| == length && after[q] == Bucket(rows + [row], q) {
      BucketAppend(rows, row, q);
      PrefixIs(row.cohortKey, q);
    }
  }

  lemma PrefixIs(key: string, p: string)
    requires |p| <= |key|
    ensures p <= key <==> key[..|p|] == p
  {
  }

  lemma {:induction false} EmptyBucket(rows: seq<Entry>, p: string)
    requires forall row :: row in rows ==> !(p <= row.cohortKey)
    ensures Bucket(rows, p) == []
  {
    if rows != [] { EmptyBucket(rows[..|rows| - 1], p); }
  }

  // ---- The recursion ----

  /**
   Indexes a bucket: counts it when it fits in memory or its prefix is a whole key, and spreads
   it over longer prefixes otherwise. Whatever `fits` says, the result is the index of the bucket.
   */
  method AggregateBucket(rows: seq<Entry>, prefix: string, fits: seq<Entry> -> bool) returns (items: seq<Item>)
    requires InBucket(rows, prefix) && |prefix| <= KEY_LENGTH && |prefix| % 2 == 0
    ensures IsIndexOf(items, rows)
    decreases KEY_LENGTH - |prefix|, 0
  {
    if fits(rows) || |prefix| == KEY_LENGTH {
      items := Count(rows);
      return;
    }
    var children := Spread(rows, |prefix| + 2);
    items := AggregateAll(rows, |prefix| + 2, children, fits);
  }

  /** Indexes the bucket files in the order of their names; the indexes together are the index of all rows. */
  method AggregateAll(rows: seq<Entry>, length: nat, children: map<string, seq<Entry>>, fits: seq<Entry> -> bool)
    returns (items: seq<Item>)
    requires length <= KEY_LENGTH && length % 2 == 0 && forall row :: row in rows ==> |row.cohortKey| == KEY_LENGTH
    requires SpreadOk(children, rows, length)
    ensures IsIndexOf(items, rows)
    decreases KEY_LENGTH - length, 1
  {
    hide Bucket, Less, IsIndexOf, PartialIndex;
    var names := SortStrings(children.Keys);
    items := [];
    NoPart(rows, length, names);
    for k := 0 to |names|
      invariant PartialIndex(items, rows, length, names, k)
    {
      var name := names[k];
      assert name in ToSet(names) && |name| == length;
      BucketHolds(rows, name);
      var part := AggregateBucket(children[name], name, fits);
      NextPart(items, part, rows, length, names, k);
      items := items + part;
    }
    WholeIndex(items, rows, length, names);
  }

  /** The index of the rows in the first `k` buckets. */
  ghost predicate PartialIndex(items: seq<Item>, rows: seq<Entry>, length: nat, names: seq<string>, k: nat)
  {
    && k <= |names|
    && Ascending(Less, ItemKeys(items))
    && KeysUpTo(ItemKeys(items), Keys(rows), length, names[..k])
    && Counted(items, rows)
  }

  /** The cohorts whose keys start with one of the names. */
  ghost predicate KeysUpTo(keys: seq<string>, all: set<string>, length: nat, names: seq<string>) {
    forall key :: key in keys <==> key in all && length <= |key| && key[..length] in names
  }

  ghost predicate Counted(items: seq<Item>, rows: seq<Entry>) {
    forall i :: 0 <= i < |items| ==> items[i] == Grouped(rows, items[i].cohortKey)
  }

  lemma NoPart(rows: seq<Entry>, length: nat, names: seq<string>)
    ensures PartialIndex([], rows, length, names, 0)
  {
  }

  lemma NextPart(items: seq<Item>, part: seq<Item>, rows: seq<Entry>, length: nat, names: seq<string>, k: nat)
    requires PartialIndex(items, rows, length, names, k) && k < |names| && Ascending(Less, names)
    requires forall row :: row in rows ==> |row.cohortKey| == KEY_LENGTH
    requires length <= KEY_LENGTH && forall name :: name in names ==> |name| == length
    requires IsIndexOf(part, Bucket(rows, names[k]))
    ensures PartialIndex(items + part, rows, length, names, k + 1)
  {
    hide Bucket, Less, IsIndexOf, Counted, KeysUpTo, Keys, ItemKeys, Ascending;
    PartKeys(part, rows, names[k]);
    CountedJoin(items, part, rows);
    JoinKeys(ItemKeys(items), ItemKeys(part), Keys(rows), length, names, k);
    KeysJoin(items, part);
    PartsAscend(ItemKeys(items), ItemKeys(part), Keys(rows), length, names, k);
  }

  lemma KeysJoin(a: seq<Item>, b: seq<Item>)
    ensures ItemKeys(a + b) == ItemKeys(a) + ItemKeys(b)
  {
  }

  lemma CountedJoin(items: seq<Item>, part: seq<Item>, rows: seq<Entry>)
    requires Counted(items, rows) && Counted(part, rows)
    ensures Counted(items + part, rows)
  {
    hide Grouped;
  }

  lemma JoinKeys(a: seq<string>, b: seq<string>, all: set<string>, length: nat, names: seq<string>, k: nat)
    requires k < |names| && KeysUpTo(a, all, length, names[..k]) && KeysUpTo(b, all, length, [names[k]])
    ensures KeysUpTo(a + b, all, length, names[..k + 1])
  {
    assert names[..k + 1] == names[..k] + [names[k]];
  }

  /** Keys of earlier buckets come before keys of later ones. */
  lemma PartsAscend(a: seq<string>, b: seq<string>, all: set<string>, length: nat, names: seq<string>, k: nat)
    requires k < |names| && Ascending(Less, names) && Ascending(Less, a) && Ascending(Less, b)
    requires KeysUpTo(a, all, length, names[..k]) && KeysUpTo(b, all, length, [names[k]])
    ensures Ascending(Less, a + b)
  {
    hide Less;
    forall i, j | 0 <= i < |a| && 0 <= j < |b| ensures Less(a[i], b[j]) {
      assert a[i] in a && b[j] in b;
      var n :| 0 <= n < k && names[n] == a[i][..length];
      assert Less(names[n], names[k]);
      LessByPrefix(a[i], b[j], length);
    }
  }

  /** The cohorts of one bucket, counted over all the rows. */
  lemma PartKeys(part: seq<Item>, rows: seq<Entry>, name: string)
    requires forall row :: row in rows ==> |name| <= |row.cohortKey|
    requires IsIndexOf(part, Bucket(rows, name))
    ensures Ascending(Less, ItemKeys(part))
    ensures KeysUpTo(ItemKeys(part), Keys(rows), |name|, [name]) && Counted(part, rows)
  {
    hide Less;
    BucketHolds(rows, name);
    forall key ensures key in ItemKeys(part) <==> key in Keys(rows) && |name| <= |key| && key[..|name|] == name {
      assert key in ItemKeys(part) <==> key in Keys(Bucket(rows, name));
      if |key| >= |name| { PrefixIs(key, name); }
    }
    forall i | 0 <= i < |part| ensures part[i] == Grouped(rows, part[i].cohortKey) {
      assert ItemKeys(part)[i] == part[i].cohortKey;
      PrefixIs(part[i].cohortKey, name);
      GroupedInBucket(rows, name, part[i].cohortKey);
    }
  }

  lemma WholeIndex(items: seq<Item>, rows: seq<Entry>, length: nat, names: seq<string>)
    requires PartialIndex(items, rows, length, names, |names|)
    requires length <= KEY_LENGTH && forall row :: row in rows ==> |row.cohortKey| == KEY_LENGTH
    requires ToSet(names) == set row | row in rows && length <= |row.cohortKey| :: row.cohortKey[..length]
    ensures IsIndexOf(items, rows)
  {
    assert names[..|names|] == names;
    forall row | row in rows ensures row.cohortKey in ItemKeys(items) {
      assert row.cohortKey[..length] in ToSet(names);
    }
  }

  /** The index of all rows: bucket files by the first two characters, each then aggregated. */
  method BuildCohortIndex(rows: seq<Entry>, fits: seq<Entry> -> bool) returns (items: seq<Item>)
    requires forall row :: row in rows ==> |row.cohortKey| == KEY_LENGTH
    ensures IsIndexOf(items, rows)
  {
    var buckets := Spread(rows, 2);
    items := AggregateAll(rows, 2, buckets, fits);
  }

  // ---- What an index conserves ----

  function TotalCount(items: seq<Item>): nat {
    if items == [] then 0 else TotalCount(items[..|items| - 1]) + items[|items| - 1].count
  }

  function SumOver(rows: seq<Entry>, keys: seq<string>): nat {
    if keys == [] then 0 else SumOver(rows, keys[..|keys| - 1]) + CountOf(rows, keys[|keys| - 1])
  }

  lemma {:induction false} SumAppend(rows: seq<Entry>, row: Entry, keys: seq<string>)
    requires Ascending(Less, keys) && StrictOrder(Less)
    ensures SumOver(rows + [row], keys) == SumOver(rows, keys) + if row.cohortKey in keys then 1 else 0
  {
    if keys != [] {
      var n := |keys| - 1;
      SumAppend(rows, row, keys[..n]);
      GroupedAppend(rows, row, keys[n]);
      assert keys == keys[..n] + [keys[n]];
      LastIsWorst(Less, keys);
      assert keys[n] in keys[..n] <==> keys[n] in ToSet(keys[..n]);
    }
  }

  lemma {:induction false} SumIsTotal(rows: seq<Entry>, keys: seq<string>)
    requires StrictOrder(Less) && Ascending(Less, keys) && forall row :: row in rows ==> row.cohortKey in keys
    ensures SumOver(rows, keys) == |rows|
  {
    if rows == [] {
      SumOfNothing(keys);
    } else {
      var n := |rows| - 1;
      SumIsTotal(rows[..n], keys);
      assert rows == rows[..n] + [rows[n]];
      SumAppend(rows[..n], rows[n], keys);
    }
  }

  lemma {:induction false} SumOfNothing(keys: seq<string>)
    ensures SumOver([], keys) == 0
  {
    if keys != [] { SumOfNothing(keys[..|keys| - 1]); }
  }

  lemma {:induction false} TotalIsSum(items: seq<Item>, rows: seq<Entry>)
    requires forall i :: 0 <= i < |items| ==> items[i].count == CountOf(rows, items[i].cohortKey)
    ensures TotalCount(items) == SumOver(rows, ItemKeys(items))
  {
    if items != [] {
      var n := |items| - 1;
      TotalIsSum(items[..n], rows);
      assert ItemKeys(items)[..n] == ItemKeys(items[..n]);
    }
  }

  /** The counts of an index add up to the number of rows: no row is lost or counted twice. */
  lemma CountsAddUp(items: seq<Item>, rows: seq<Entry>)
    requires IsIndexOf(items, rows)
    ensures TotalCount(items) == |rows|
  {
    StringsOrdered();
    TotalIsSum(items, rows);
    forall row | row in rows ensures row.cohortKey in ItemKeys(items) { assert row.cohortKey in Keys(rows); }
    SumIsTotal(rows, ItemKeys(items));
  }
}
