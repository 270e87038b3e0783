/**
 The bounded sample of audit decisions: four bounded buffers are filled while the decisions
 stream by, and the sample is put together from them at the end.
 */
module AuditSampler {
  import opened Ordering

  datatype Disposition = ManualReview | QuarantineUnresolved | NormalizeAfterCohortApproval | AutoNormalize | SkipUnsupported

  datatype Row = Row(recordId: string, cohortKey: string, disposition: Disposition, reasonCodes: seq<string>)

  datatype Ranked = Ranked(row: Row, rank: nat, score: string)

  datatype Outcome = Sampled(rows: seq<Row>) | InvalidRequest | TooManyStrata

  const MAX_SAMPLE := 100

  function RiskRank(d: Disposition): nat {
    match d
    case ManualReview => 0
    case QuarantineUnresolved => 1
    case NormalizeAfterCohortApproval => 2
    case AutoNormalize => 3
    case SkipUnsupported => 4
  }

  /** The score is a hash of the seed, the cohort and the record. */
  function Rank(hash: string -> string, seed: string, row: Row): Ranked {
    Ranked(row, RiskRank(row.disposition), hash(seed + [0 as char] + row.cohortKey + [0 as char] + row.recordId))
  }

  predicate Before(a: Ranked, b: Ranked) {
    || a.rank < b.rank
    || (a.rank == b.rank && (Less(a.score, b.score) || (a.score == b.score && Less(a.row.recordId, b.row.recordId))))
  }

  predicate Risky(x: Ranked) {
    x.rank < RiskRank(AutoNormalize)
  }

  ghost predicate DistinctIds(s: set<Ranked>) {
    forall x, y :: x in s && y in s && x.row.recordId == y.row.recordId ==> x == y
  }

  lemma BeforeOrders()
    ensures StrictOrder(Before)
  {
    forall x ensures !Before(x, x) { LessIrreflexive(x.score); LessIrreflexive(x.row.recordId); }
    forall x, y, z | Before(x, y) && Before(y, z) ensures Before(x, z) {
      if Less(x.score, y.score) && Less(y.score, z.score) { LessTransitive(x.score, y.score, z.score); }
      if Less(x.row.recordId, y.row.recordId) && Less(y.row.recordId, z.row.recordId) {
        LessTransitive(x.row.recordId, y.row.recordId, z.row.recordId);
      }
    }
  }

  lemma BeforeTotal(s: set<Ranked>)
    requires DistinctIds(s)
    ensures TotalOn(Before, s) && StrictOrder(Before)
  {
    BeforeOrders();
    forall x, y | x in s && y in s && x != y ensures Before(x, y) || Before(y, x) {
      LessTotal(x.score, y.score);
      LessTotal(x.row.recordId, y.row.recordId);
    }
  }

  // ---- What the sample is, as a function of the set of rows ----

  datatype Grouping = ByCohort | ByStratum

  /** A stratum is a disposition with its reason codes in any order; the sorted text of the original only serves as a key. */
  datatype Group = Cohort(key: string) | Stratum(disposition: Disposition, reasonCodes: multiset<string>)

  function GroupOf(g: Grouping, x: Ranked): Group {
    if g == ByCohort then Cohort(x.row.cohortKey) else Stratum(x.row.disposition, multiset(x.row.reasonCodes))
  }

  /** The best row of every group. */
  ghost function Minima(g: Grouping, s: set<Ranked>): set<Ranked> {
    set x | x in s && forall y :: y in s && GroupOf(g, y) == GroupOf(g, x) ==> y == x || Before(x, y)
  }

  ghost function RiskyOf(s: set<Ranked>): set<Ranked> {
    set x | x in s && Risky(x)
  }

  /** The `n` best rows in order, or all of them. */
  ghost function BestOf(n: nat, s: set<Ranked>): seq<Ranked>
    requires DistinctIds(s)
  {
    BeforeTotal(s);
    var all := Ascend(Before, s);
    if |all| < n then all else all[..n]
  }

  /** Adds entries until there are `n`. */
  function AddUntilFull(n: nat, selected: set<Ranked>, entries: seq<Ranked>): set<Ranked> {
    if entries == [] then selected
    else
      var before := AddUntilFull(n, selected, entries[..|entries| - 1]);
      if |before| == n then before else before + {entries[|entries| - 1]}
  }

  ghost function Selection(n: nat, s: set<Ranked>): set<Ranked>
    requires DistinctIds(s)
  {
    BeforeTotal(s);
    assert TotalOn(Before, Minima(ByStratum, RiskyOf(s)));
    var strata := AddUntilFull(n, {}, Ascend(Before, Minima(ByStratum, RiskyOf(s))));
    var cohorts := AddUntilFull(n, strata, BestOf(n, Minima(ByCohort, s)));
    var risky := AddUntilFull(n, cohorts, BestOf(n, RiskyOf(s)));
    AddUntilFull(n, risky, BestOf(n, s))
  }

  /** What adding until full can do. */
  lemma {:induction false} AddShape(n: nat, selected: set<Ranked>, entries: seq<Ranked>)
    requires |selected| <= n
    ensures var r := AddUntilFull(n, selected, entries);
            selected <= r <= selected + ToSet(entries) && |r| <= n && (|r| < n ==> r == selected + ToSet(entries))
  {
    if entries == [] {
      assert selected + ToSet(entries) == selected;
    } else {
      var last := |entries| - 1;
      var before, x := AddUntilFull(n, selected, entries[..last]), entries[last];
      AddShape(n, selected, entries[..last]);
      ToSetLast(entries);
      if |before| < n { AddOne(before, x); }
    }
  }

  lemma ToSetLast(entries: seq<Ranked>)
    requires entries != []
    ensures ToSet(entries) == ToSet(entries[..|entries| - 1]) + {entries[|entries| - 1]}
  {
    assert entries == entries[..|entries| - 1] + [entries[|entries| - 1]];
  }

  lemma AddOne(before: set<Ranked>, x: Ranked)
    ensures |before + {x}| <= |before| + 1
  {
    if x in before { assert before + {x} == before; }
  }

  /** The first few of an ascending sequence are the best. */
  lemma BestOfIsBest(n: nat, s: set<Ranked>)
    requires DistinctIds(s)
    ensures StrictOrder(Before) && Ascending(Before, BestOf(n, s)) && IsBest(Before, n, s, ToSet(BestOf(n, s)))
    ensures |BestOf(n, s)| == if |s| < n then |s| else n
  {
    BeforeTotal(s);
    var all, best := Ascend(Before, s), BestOf(n, s);
    AscendingSize(Before, all);
    AscendingSize(Before, best);
    forall x, y | x in ToSet(best) && y in s && y !in ToSet(best) ensures Before(x, y) {
      var i :| 0 <= i < |best| && best[i] == x;
      assert y in ToSet(all);
      var j :| 0 <= j < |all| && all[j] == y;
      InPrefix(all, |best|, j);
    }
  }

  lemma InPrefix(all: seq<Ranked>, k: nat, j: nat)
    requires k <= |all|
    ensures j < k ==> all[j] in ToSet(all[..k])
  {
    if j < k { assert all[..k][j] == all[j]; }
  }

  /** A bounded buffer in order is the best of what went by. */
  lemma BufferIs(n: nat, s: set<Ranked>, buffer: seq<Ranked>)
    requires DistinctIds(s) && Ascending(Before, buffer) && IsBest(Before, n, s, ToSet(buffer))
    ensures buffer == BestOf(n, s)
  {
    BestOfIsBest(n, s);
    BestUnique(Before, n, s, ToSet(buffer), ToSet(BestOf(n, s)));
    AscendingUnique(Before, buffer, BestOf(n, s));
  }

  /**
   The sample of any rows with distinct record ids: exactly as many as asked for, or all, and
   the best row of every mandatory risk stratum is among them.
   */
  lemma SelectionShape(n: nat, s: set<Ranked>)
    requires DistinctIds(s) && |Minima(ByStratum, RiskyOf(s))| <= n
    ensures Selection(n, s) <= s
    ensures |Selection(n, s)| == if |s| < n then |s| else n
    ensures Minima(ByStratum, RiskyOf(s)) <= Selection(n, s)
    ensures |Minima(ByStratum, RiskyOf(s)) + Minima(ByCohort, s)| <= n ==> Minima(ByCohort, s) <= Selection(n, s)
  {
    BeforeTotal(s);
    var minima, reps := Minima(ByStratum, RiskyOf(s)), Minima(ByCohort, s);
    AddShape(n, {}, Ascend(Before, minima));
    assert AddUntilFull(n, {}, Ascend(Before, minima)) == minima by {
      if AddUntilFull(n, {}, Ascend(Before, minima)) != minima { Proper(AddUntilFull(n, {}, Ascend(Before, minima)), minima); }
    }
    var cohorts := AddBest(n, s, reps, minima);
    if |minima + reps| <= n { AllCohortsFit(n, s, minima, cohorts); }
    var risky := AddBest(n, s, RiskyOf(s), cohorts);
    FullOrAll(n, s, risky);
  }

  /** Adding the best of some of the rows. */
  lemma AddBest(n: nat, s: set<Ranked>, some: set<Ranked>, selected: set<Ranked>) returns (r: set<Ranked>)
    requires DistinctIds(s) && some <= s && selected <= s && |selected| <= n
    ensures r == AddUntilFull(n, selected, BestOf(n, some)) && selected <= r <= s && |r| <= n
    ensures r <= selected + ToSet(BestOf(n, some)) && (|r| < n ==> r == selected + ToSet(BestOf(n, some)))
  {
    r := AddUntilFull(n, selected, BestOf(n, some));
    AddShape(n, selected, BestOf(n, some));
    BestOfIsBest(n, some);
  }

  /** The last buffer holds enough rows to fill the sample. */
  lemma FullOrAll(n: nat, s: set<Ranked>, risky: set<Ranked>)
    requires DistinctIds(s) && risky <= s && |risky| <= n
    ensures var r := AddUntilFull(n, risky, BestOf(n, s)); risky <= r <= s && |r| == if |s| < n then |s| else n
  {
    var general := ToSet(BestOf(n, s));
    var r := AddBest(n, s, s, risky);
    BestOfIsBest(n, s);
    SubsetSize(r, s);
    if |r| < n {
      SubsetSize(general, r);
      if general != s { Proper(general, s); }
    }
  }

  lemma AllCohortsFit(n: nat, s: set<Ranked>, strata: set<Ranked>, cohorts: set<Ranked>)
    requires DistinctIds(s) && strata == Minima(ByStratum, RiskyOf(s)) && |strata + Minima(ByCohort, s)| <= n
    requires strata <= cohorts <= strata + ToSet(BestOf(n, Minima(ByCohort, s)))
    requires |cohorts| <= n && (|cohorts| < n ==> cohorts == strata + ToSet(BestOf(n, Minima(ByCohort, s))))
    ensures Minima(ByCohort, s) <= cohorts
  {
    var reps := Minima(ByCohort, s);
    BestOfIsBest(n, reps);
    SubsetSize(reps, strata + reps);
    assert ToSet(BestOf(n, reps)) == reps by {
      if ToSet(BestOf(n, reps)) != reps { Proper(ToSet(BestOf(n, reps)), reps); }
    }
    if cohorts != strata + reps { Proper(cohorts, strata + reps); }
  }

  lemma SelectionWithin(n: nat, s: set<Ranked>)
    requires DistinctIds(s)
    ensures StrictOrder(Before) && Selection(n, s) <= s && TotalOn(Before, Selection(n, s))
  {
    BeforeTotal(s);
    AddShape(n, {}, Ascend(Before, Minima(ByStratum, RiskyOf(s))));
    var cohorts := AddBest(n, s, Minima(ByCohort, s), AddUntilFull(n, {}, Ascend(Before, Minima(ByStratum, RiskyOf(s)))));
    var risky := AddBest(n, s, RiskyOf(s), cohorts);
    var all := AddBest(n, s, s, risky);
  }

  function RowsOf(s: seq<Ranked>): seq<Row> {
    seq(|s|, i requires 0 <= i < |s| => s[i].row)
  }

  /** The sample: the selected rows in order. */
  ghost function SampleOf(n: nat, s: set<Ranked>): seq<Row>
    requires DistinctIds(s)
  {
    SelectionWithin(n, s);
    RowsOf(Ascend(Before, Selection(n, s)))
  }

  // ---- One more row ----

  /** A group that has rows has a best one. */
  lemma MinimumOf(g: Grouping, s: set<Ranked>, y: Ranked) returns (m: Ranked)
    requires DistinctIds(s) && y in s
    ensures m in Minima(g, s) && GroupOf(g, m) == GroupOf(g, y)
  {
    BeforeTotal(s);
    var same := set z | z in s && GroupOf(g, z) == GroupOf(g, y);
    assert y in same;
    m := Least(Before, same);
  }

  lemma MinimaNewGroup(g: Grouping, s: set<Ranked>, x: Ranked)
    requires forall y :: y in s ==> GroupOf(g, y) != GroupOf(g, x)
    ensures Minima(g, s + {x}) == Minima(g, s) + {x}
  {
  }

  lemma MinimaOldGroup(g: Grouping, s: set<Ranked>, x: Ranked, m: Ranked)
    requires DistinctIds(s + {x}) && x !in s && m in Minima(g, s) && GroupOf(g, m) == GroupOf(g, x)
    ensures Minima(g, s + {x}) == if Before(x, m) then Minima(g, s) - {m} + {x} else Minima(g, s)
  {
    BeforeTotal(s + {x});
    assert m in s + {x} && x in s + {x};
  }

  /** Groups never disappear. */
  lemma MinimaGrow(g: Grouping, s: set<Ranked>, x: Ranked)
    requires DistinctIds(s + {x}) && x !in s
    ensures |Minima(g, s)| <= |Minima(g, s + {x})|
  {
    if y :| y in s && GroupOf(g, y) == GroupOf(g, x) {
      var m := MinimumOf(g, s, y);
      MinimaOldGroup(g, s, x, m);
    } else {
      MinimaNewGroup(g, s, x);
    }
  }

  /** A map from each group to one of its rows. */
  ghost predicate Keyed(g: Grouping, m: map<Group, Ranked>) {
    forall k :: k in m ==> GroupOf(g, m[k]) == k
  }

  lemma KeyedIn(g: Grouping, m: map<Group, Ranked>, x: Ranked)
    requires Keyed(g, m)
    ensures x in m.Values ==> GroupOf(g, x) in m && m[GroupOf(g, x)] == x
  {
  }

  lemma ValuesPut(g: Grouping, m: map<Group, Ranked>, x: Ranked)
    requires Keyed(g, m)
    ensures var k := GroupOf(g, x);
            m[k := x].Values == (if k in m then m.Values - {m[k]} else m.Values) + {x}
  {
    var k := GroupOf(g, x);
    var after := m[k := x];
    forall y ensures y in after.Values <==> y in (if k in m then m.Values - {m[k]} else m.Values) + {x} {
      if y in m.Values { var j :| j in m && m[j] == y; assert j != k ==> after[j] == y; }
      assert after[k] == x;
    }
  }

  lemma ValuesRemove(g: Grouping, m: map<Group, Ranked>, k: Group)
    requires Keyed(g, m) && k in m
    ensures (m - {k}).Values == m.Values - {m[k]}
  {
    forall y | y in m.Values && y != m[k] ensures y in (m - {k}).Values {
      var j :| j in m && m[j] == y;
      assert (m - {k})[j] == y;
    }
  }

  lemma {:induction false} ValuesSize(g: Grouping, m: map<Group, Ranked>)
    requires Keyed(g, m)
    ensures |m.Values| == |m|
    decreases |m|
  {
    if m != map[] {
      var k :| k in m;
      ValuesRemove(g, m, k);
      ValuesSize(g, m - {k});
      assert (m - {k}).Keys == m.Keys - {k};
      assert m[k] in m.Values;
    } else {
      assert m.Values == {};
    }
  }

  // ---- The stream ----

  ghost function RankedSet(hash: string -> string, seed: string, rows: seq<Row>): set<Ranked> {
    set row | row in rows :: Rank(hash, seed, row)
  }

  ghost predicate UniqueRows(rows: seq<Row>) {
    forall i, j :: 0 <= i < j < |rows| ==> rows[i].recordId != rows[j].recordId
  }

  lemma RankedDistinct(hash: string -> string, seed: string, rows: seq<Row>)
    requires UniqueRows(rows)
    ensures DistinctIds(RankedSet(hash, seed, rows))
  {
  }

  lemma NextRow(hash: string -> string, seed: string, rows: seq<Row>, k: nat)
    requires UniqueRows(rows) && k < |rows|
    ensures var s, x := RankedSet(hash, seed, rows[..k]), Rank(hash, seed, rows[k]);
            x !in s && RankedSet(hash, seed, rows[..k + 1]) == s + {x} && DistinctIds(s + {x})
  {
    assert rows[..k + 1] == rows[..k] + [rows[k]];
    RankedDistinct(hash, seed, rows[..k + 1]);
  }

  /** Keeps the best row of the row's group. */
  method KeepBest(g: Grouping, ghost s: set<Ranked>, m: map<Group, Ranked>, x: Ranked) returns (r: map<Group, Ranked>)
    requires DistinctIds(s + {x}) && x !in s && Keyed(g, m) && m.Values == Minima(g, s)
    ensures Keyed(g, r) && r.Values == Minima(g, s + {x})
  {
    var k := GroupOf(g, x);
    ValuesPut(g, m, x);
    if k in m {
      assert m[k] in m.Values;
      MinimaOldGroup(g, s, x, m[k]);
    } else {
      forall y | y in s ensures GroupOf(g, y) != k {
        if GroupOf(g, y) == k {
          var best := MinimumOf(g, s, y);
          KeyedIn(g, m, best);
        }
      }
      MinimaNewGroup(g, s, x);
    }
    r := if k !in m || Before(x, m[k]) then m[k := x] else m;
  }

  /**
   The evicting cohort map: it always holds the `n` best of the best rows of the cohorts so
   far, although a cohort that was evicted is forgotten and may come back.
   */
  method KeepBestCohorts(n: nat, ghost s: set<Ranked>, m: map<Group, Ranked>, x: Ranked) returns (r: map<Group, Ranked>)
    requires n > 0 && DistinctIds(s + {x}) && x !in s && Keyed(ByCohort, m) && |m| <= n
    requires IsBest(Before, n, Minima(ByCohort, s), m.Values)
    ensures Keyed(ByCohort, r) && |r| <= n && IsBest(Before, n, Minima(ByCohort, s + {x}), r.Values)
  {
    hide Before, Minima, GroupOf, TotalOn;
    var k := GroupOf(ByCohort, x);
    ValuesPut(ByCohort, m, x);
    ValuesSize(ByCohort, m);
    r := m;
    if k !in m || Before(x, m[k]) { r := r[k := x]; }
    ValuesSize(ByCohort, r);
    if k in m {
      OldCohort(n, s, m, x);
    } else if |m| < n {
      CohortIsNew(n, s, m, x);
      BestGrows(Before, n, Minima(ByCohort, s), m.Values, x);
    }
    if |r| > n {
      BeforeTotal(s + {x});
      assert m.Values <= Minima(ByCohort, s);
      MinimaWithin(s);
      assert r.Values <= s + {x};
      var worst: Ranked;
      r, worst := Evict(r);
      EvictWorst(n, s, m, x, worst);
    }
  }

  /** Removes the worst row of a map. */
  method Evict(m: map<Group, Ranked>) returns (r: map<Group, Ranked>, worst: Ranked)
    requires Keyed(ByCohort, m) && m != map[] && StrictOrder(Before) && TotalOn(Before, m.Values)
    ensures worst in m.Values && forall y :: y in m.Values && y != worst ==> Before(y, worst)
    ensures Keyed(ByCohort, r) && r.Values == m.Values - {worst} && |r| == |m| - 1
  {
    ValuesSize(ByCohort, m);
    var sorted := Sort(Before, m.Values);
    worst := sorted[|sorted| - 1];
    LastIsWorst(Before, sorted);
    KeyedIn(ByCohort, m, worst);
    ValuesRemove(ByCohort, m, GroupOf(ByCohort, worst));
    r := m - {GroupOf(ByCohort, worst)};
    ValuesSize(ByCohort, r);
  }

  /** A row of a cohort that is in the map. */
  lemma OldCohort(n: nat, s: set<Ranked>, m: map<Group, Ranked>, x: Ranked)
    requires DistinctIds(s + {x}) && x !in s && Keyed(ByCohort, m) && GroupOf(ByCohort, x) in m
    requires IsBest(Before, n, Minima(ByCohort, s), m.Values)
    ensures var former := m[GroupOf(ByCohort, x)];
            IsBest(Before, n, Minima(ByCohort, s + {x}), if Before(x, former) then m.Values - {former} + {x} else m.Values)
  {
    BeforeOrders();
    var former := m[GroupOf(ByCohort, x)];
    assert former in m.Values;
    MinimaOldGroup(ByCohort, s, x, former);
    if Before(x, former) { BestImproves(Before, n, Minima(ByCohort, s), m.Values, former, x); }
  }

  /** While there is room, no cohort has been evicted. */
  lemma CohortIsNew(n: nat, s: set<Ranked>, m: map<Group, Ranked>, x: Ranked)
    requires DistinctIds(s + {x}) && x !in s && Keyed(ByCohort, m) && GroupOf(ByCohort, x) !in m && |m.Values| < n
    requires IsBest(Before, n, Minima(ByCohort, s), m.Values)
    ensures x !in Minima(ByCohort, s) && Minima(ByCohort, s + {x}) == Minima(ByCohort, s) + {x}
  {
    if m.Values != Minima(ByCohort, s) { Proper(m.Values, Minima(ByCohort, s)); }
    forall y | y in s ensures GroupOf(ByCohort, y) != GroupOf(ByCohort, x) {
      if GroupOf(ByCohort, y) == GroupOf(ByCohort, x) {
        var best := MinimumOf(ByCohort, s, y);
        KeyedIn(ByCohort, m, best);
      }
    }
    MinimaNewGroup(ByCohort, s, x);
  }

  /** Evicting the worst of a full map and the new row. */
  lemma EvictWorst(n: nat, s: set<Ranked>, m: map<Group, Ranked>, x: Ranked, worst: Ranked)
    requires DistinctIds(s + {x}) && x !in s && Keyed(ByCohort, m) && GroupOf(ByCohort, x) !in m && |m.Values| == n
    requires IsBest(Before, n, Minima(ByCohort, s), m.Values)
    requires worst in m.Values + {x} && forall y :: y in m.Values + {x} && y != worst ==> Before(y, worst)
    ensures IsBest(Before, n, Minima(ByCohort, s + {x}), m.Values + {x} - {worst})
  {
    BeforeTotal(s + {x});
    var all, best := Minima(ByCohort, s), m.Values;
    if y :| y in s && GroupOf(ByCohort, y) == GroupOf(ByCohort, x) {
      var min := MinimumOf(ByCohort, s, y);
      KeyedIn(ByCohort, m, min);
      MinimaOldGroup(ByCohort, s, x, min);
      if Before(x, min) {
        BestWithout(Before, n, all, best, min);
        BestDrops(Before, n, all - {min}, best, x, worst);
      } else {
        assert min in s + {x} && x in s + {x};
        BestStays(Before, n, all, best, min, x, worst);
      }
    } else {
      MinimaNewGroup(ByCohort, s, x);
      BestDrops(Before, n, all, best, x, worst);
    }
  }

  /** Takes entries into the selection until it is full. */
  method TakeUntilFull(n: nat, ghost s: set<Ranked>, selected: map<string, Ranked>, entries: seq<Ranked>) returns (r: map<string, Ranked>)
    requires DistinctIds(s) && ToSet(entries) <= s && SelectionOf(s, selected)
    ensures SelectionOf(s, r) && r.Values == AddUntilFull(n, selected.Values, entries)
  {
    r := selected;
    assert entries[..0] == [];
    for k := 0 to |entries|
      invariant SelectionOf(s, r) && r.Values == AddUntilFull(n, selected.Values, entries[..k])
    {
      assert entries[..k + 1][..k] == entries[..k] && entries[k] in ToSet(entries);
      SelectionSize(s, r);
      if |r| == n {
        FullStays(n, selected.Values, entries, k);
        return;
      }
      SelectionPut(s, r, entries[k]);
      r := r[entries[k].row.recordId := entries[k]];
    }
    assert entries[..|entries|] == entries;
  }

  /** Rows of `s`, by record id. */
  ghost predicate SelectionOf(s: set<Ranked>, m: map<string, Ranked>) {
    forall id :: id in m ==> m[id].row.recordId == id && m[id] in s
  }

  lemma SelectionPut(s: set<Ranked>, m: map<string, Ranked>, x: Ranked)
    requires DistinctIds(s) && SelectionOf(s, m) && x in s
    ensures m[x.row.recordId := x].Values == m.Values + {x}
  {
    var after := m[x.row.recordId := x];
    assert after[x.row.recordId] == x;
    forall y | y in m.Values ensures y in after.Values {
      var id :| id in m && m[id] == y;
      assert after[id] == y;
    }
  }

  lemma {:induction false} SelectionSize(s: set<Ranked>, m: map<string, Ranked>)
    requires SelectionOf(s, m)
    ensures |m.Values| == |m|
    decreases |m|
  {
    if id :| id in m {
      var rest := m - {id};
      SelectionSize(s, rest);
      assert rest.Keys == m.Keys - {id};
      assert m.Values == rest.Values + {m[id]} by {
        forall y | y in m.Values && y != m[id] ensures y in rest.Values {
          var j :| j in m && m[j] == y;
          assert rest[j] == y;
        }
      }
      assert m[id] !in rest.Values;
    } else {
      assert m == map[] && m.Values == {};
    }
  }

  lemma {:induction false} FullStays(n: nat, selected: set<Ranked>, entries: seq<Ranked>, k: nat)
    requires k <= |entries| && |AddUntilFull(n, selected, entries[..k])| == n
    ensures AddUntilFull(n, selected, entries) == AddUntilFull(n, selected, entries[..k])
  {
    if k < |entries| {
      var last := |entries| - 1;
      assert entries[..last][..k] == entries[..k];
      FullStays(n, selected, entries[..last], k);
    } else {
      assert entries[..k] == entries;
    }
  }

  /** The four buffers after some rows. */
  ghost predicate BuffersOk(n: nat, s: set<Ranked>, general: seq<Ranked>, risky: seq<Ranked>,
                            cohorts: map<Group, Ranked>, strata: map<Group, Ranked>) {
    && Ascending(Before, general) && IsBest(Before, n, s, ToSet(general)) && |general| <= n
    && Ascending(Before, risky) && IsBest(Before, n, RiskyOf(s), ToSet(risky)) && |risky| <= n
    && Keyed(ByCohort, cohorts) && IsBest(Before, n, Minima(ByCohort, s), cohorts.Values) && |cohorts| <= n
    && Keyed(ByStratum, strata) && strata.Values == Minima(ByStratum, RiskyOf(s)) && |strata| <= n
  }

  /** One row into the four buffers; `fits` is false when the strata no longer fit. */
  method Take(n: nat, ghost s: set<Ranked>, x: Ranked, general: seq<Ranked>, risky: seq<Ranked>,
              cohorts: map<Group, Ranked>, strata: map<Group, Ranked>)
    returns (fits: bool, general': seq<Ranked>, risky': seq<Ranked>, cohorts': map<Group, Ranked>, strata': map<Group, Ranked>)
    requires n > 0 && DistinctIds(s + {x}) && x !in s && BuffersOk(n, s, general, risky, cohorts, strata)
    ensures fits == (|Minima(ByStratum, RiskyOf(s + {x}))| <= n)
    ensures fits ==> BuffersOk(n, s + {x}, general', risky', cohorts', strata')
  {
    hide Before, Minima, Rank;
    BeforeTotal(s + {x});
    fits, risky', cohorts', strata' := true, risky, cohorts, strata;
    general' := PushBounded(Before, n, s, general, x);
    if Risky(x) {
      assert RiskyOf(s + {x}) == RiskyOf(s) + {x};
      risky' := PushBounded(Before, n, RiskyOf(s), risky, x);
      strata' := KeepBest(ByStratum, RiskyOf(s), strata, x);
      ValuesSize(ByStratum, strata');
      if |strata'| > n { return false, general', risky', cohorts', strata'; }
    } else {
      assert RiskyOf(s + {x}) == RiskyOf(s);
      ValuesSize(ByStratum, strata);
    }
    cohorts' := KeepBestCohorts(n, s, cohorts, x);
  }

  lemma MinimaWithin(s: set<Ranked>)
    requires DistinctIds(s)
    ensures StrictOrder(Before) && RiskyOf(s) <= s && Minima(ByCohort, s) <= s && Minima(ByStratum, RiskyOf(s)) <= s
    ensures DistinctIds(RiskyOf(s)) && DistinctIds(Minima(ByCohort, s)) && DistinctIds(Minima(ByStratum, RiskyOf(s)))
    ensures TotalOn(Before, Minima(ByCohort, s)) && TotalOn(Before, Minima(ByStratum, RiskyOf(s)))
  {
    BeforeTotal(s);
  }

  lemma BestWithin(n: nat, s: set<Ranked>, some: set<Ranked>)
    requires DistinctIds(s) && some <= s
    ensures ToSet(BestOf(n, some)) <= s
  {
    BestOfIsBest(n, some);
  }

  method SortRows(s: set<Ranked>) returns (r: seq<Ranked>)
    requires StrictOrder(Before) && TotalOn(Before, s)
    ensures r == Ascend(Before, s)
  {
    r := Sort(Before, s);
    AscendingUnique(Before, r, Ascend(Before, s));
  }

  /** The selection, put together from the sorted buffers. */
  method Combine(n: nat, ghost s: set<Ranked>, general: seq<Ranked>, risky: seq<Ranked>, cohorts: seq<Ranked>, strata: seq<Ranked>)
    returns (selected: map<string, Ranked>)
    requires DistinctIds(s) && general == BestOf(n, s) && risky == BestOf(n, RiskyOf(s)) && cohorts == BestOf(n, Minima(ByCohort, s))
    requires StrictOrder(Before) && TotalOn(Before, Minima(ByStratum, RiskyOf(s))) && strata == Ascend(Before, Minima(ByStratum, RiskyOf(s)))
    ensures SelectionOf(s, selected) && selected.Values == Selection(n, s)
  {
    hide Before, Minima, BestOf, AddUntilFull, RiskyOf;
    MinimaWithin(s);
    BestWithin(n, s, s);
    BestWithin(n, s, RiskyOf(s));
    BestWithin(n, s, Minima(ByCohort, s));
    selected := map[];
    assert selected.Values == {};
    selected := TakeUntilFull(n, s, selected, strata);
    selected := TakeUntilFull(n, s, selected, cohorts);
    selected := TakeUntilFull(n, s, selected, risky);
    selected := TakeUntilFull(n, s, selected, general);
  }

  /** The sample, from the buffers at the end of the stream. */
  method Assemble(n: nat, ghost s: set<Ranked>, general: seq<Ranked>, risky: seq<Ranked>,
                  cohorts: map<Group, Ranked>, strata: map<Group, Ranked>) returns (r: seq<Ranked>)
    requires DistinctIds(s) && BuffersOk(n, s, general, risky, cohorts, strata)
    ensures Ascending(Before, r) && ToSet(r) == Selection(n, s)
  {
    hide Before, Minima, BestOf, AddUntilFull, RiskyOf, IsBest, Selection;
    BeforeTotal(s);
    MinimaWithin(s);
    var sortedStrata := SortRows(strata.Values);
    BestSubset(n, Minima(ByCohort, s), cohorts.Values);
    var sortedCohorts := SortRows(cohorts.Values);
    BufferIs(n, Minima(ByCohort, s), sortedCohorts);
    BufferIs(n, RiskyOf(s), risky);
    BufferIs(n, s, general);
    var selected := Combine(n, s, general, risky, sortedCohorts, sortedStrata);
    r := SortSelected(s, selected);
  }

  lemma BestSubset(n: nat, s: set<Ranked>, best: set<Ranked>)
    requires IsBest(Before, n, s, best) && TotalOn(Before, s)
    ensures TotalOn(Before, best)
  {
  }

  method SortSelected(ghost s: set<Ranked>, selected: map<string, Ranked>) returns (r: seq<Ranked>)
    requires DistinctIds(s) && SelectionOf(s, selected)
    ensures Ascending(Before, r) && ToSet(r) == selected.Values
  {
    BeforeTotal(s);
    assert selected.Values <= s;
    r := Sort(Before, selected.Values);
  }

  /**
   The sampler. Its result is a function of the set of rows, whatever order they arrive in: it
   refuses exactly when there are more mandatory strata than places, and otherwise returns the
   selection in order.
   */
  method Sample(hash: string -> string, rows: seq<Row>, seed: string, targetSize: int) returns (o: Outcome)
    requires UniqueRows(rows)
    ensures o.InvalidRequest? <==> seed == "" || targetSize < 1 || targetSize > MAX_SAMPLE
    ensures !o.InvalidRequest? ==>
              var s := RankedSet(hash, seed, rows);
              && (o.TooManyStrata? <==> |Minima(ByStratum, RiskyOf(s))| > targetSize)
              && (o.Sampled? ==> DistinctIds(s) && o.rows == SampleOf(targetSize, s))
    ensures o.Sampled? ==> |o.rows| == if |rows| < targetSize then |rows| else targetSize
  {
    if seed == "" || targetSize < 1 || targetSize > MAX_SAMPLE { return InvalidRequest; }
    var general, risky: seq<Ranked> := [], [];
    var cohorts, strata: map<Group, Ranked> := map[], map[];
    ghost var s: set<Ranked> := {};
    assert rows[..0] == [] && RankedSet(hash, seed, []) == {};
    assert BuffersOk(targetSize, s, general, risky, cohorts, strata) by {
      assert ToSet<Ranked>([]) == {} && RiskyOf(s) == {} && Minima(ByCohort, s) == {} && Minima(ByStratum, {}) == {};
    }
    for k := 0 to |rows|
      invariant s == RankedSet(hash, seed, rows[..k]) && DistinctIds(s)
      invariant BuffersOk(targetSize, s, general, risky, cohorts, strata)
    {
      var x := Rank(hash, seed, rows[k]);
      NextRow(hash, seed, rows, k);
      var fits;
      fits, general, risky, cohorts, strata := Take(targetSize, s, x, general, risky, cohorts, strata);
      s := s + {x};
      if !fits {
        StrataGrow(hash, seed, rows, k + 1);
        return TooManyStrata;
      }
    }
    assert rows[..|rows|] == rows;
    var selected := Assemble(targetSize, s, general, risky, cohorts, strata);
    o := Sampled(RowsOf(selected));
    ValuesSize(ByStratum, strata);
    SelectionWithin(targetSize, s);
    AscendingUnique(Before, selected, Ascend(Before, Selection(targetSize, s)));
    AscendingSize(Before, selected);
    SelectionShape(targetSize, s);
    RankedSize(hash, seed, rows);
  }

  lemma {:induction false} RankedSize(hash: string -> string, seed: string, rows: seq<Row>)
    requires UniqueRows(rows)
    ensures |RankedSet(hash, seed, rows)| == |rows|
  {
    if rows == [] {
      assert RankedSet(hash, seed, rows) == {};
    } else {
      var n := |rows| - 1;
      RankedSize(hash, seed, rows[..n]);
      NextRow(hash, seed, rows, n);
      assert rows[..n + 1] == rows;
    }
  }

  lemma {:induction false} StrataGrow(hash: string -> string, seed: string, rows: seq<Row>, k: nat)
    requires UniqueRows(rows) && k <= |rows|
    ensures |Minima(ByStratum, RiskyOf(RankedSet(hash, seed, rows[..k])))| <= |Minima(ByStratum, RiskyOf(RankedSet(hash, seed, rows)))|
    decreases |rows| - k
  {
    hide Before, Minima, Rank;
    if k < |rows| {
      StrataGrow(hash, seed, rows, k + 1);
      NextRow(hash, seed, rows, k);
      var s, x := RankedSet(hash, seed, rows[..k]), Rank(hash, seed, rows[k]);
      if Risky(x) {
        assert RiskyOf(s + {x}) == RiskyOf(s) + {x};
        MinimaGrow(ByStratum, RiskyOf(s), x);
      } else {
        assert RiskyOf(s + {x}) == RiskyOf(s);
      }
    } else {
      assert rows[..k] == rows;
    }
  }
}
