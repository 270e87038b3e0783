/**
 The migration's manifests: planning them from decisions about a tree, and validating them
 against a tree.
 */
module Migration {
  import opened LineLog
  import opened DateNames
  import opened Ordering

  datatype Path = Path(dir: string, name: string)

  /** What `lstat` reports of a file. */
  datatype Identity = Identity(dev: nat, ino: nat, nlink: nat, size: nat, mtimeNs: int, ctimeNs: int, mode: nat)

  datatype DirIdentity = DirIdentity(dev: nat, ino: nat, mode: nat)

  /** A file: which object it is, and its metadata. The program sees only the metadata. */
  datatype File = File(id: nat, stat: Identity)

  type Tree = map<Path, File>

  type Dirs = map<string, DirIdentity>

  datatype Row = Row(source: Path, target: Path, selected: string, identity: Identity, parent: DirIdentity)

  datatype Manifest = Manifest(version: int, entries: seq<Row>)

  predicate Regular(stat: Identity) {
    stat.mode / 0x1000 % 16 == 8
  }

  /** A rename changes the ctime, so a moved file is compared without it. */
  predicate SameIdentity(observed: Identity, expected: Identity, moved: bool) {
    if moved then observed.(ctimeNs := expected.ctimeNs) == expected else observed == expected
  }

  predicate SameObject(a: File, b: File) {
    a.id == b.id && SameIdentity(a.stat, b.stat, true)
  }

  predicate RowOk(row: Row, dirs: Dirs) {
    var proposal := SelectedName(row.source.name, row.selected);
    && row.source.dir == row.target.dir
    && proposal.Some? && Accepted(proposal.value, row.target.name)
    && row.source.dir in dirs && dirs[row.source.dir] == row.parent
    && row.source != row.target
  }

  ghost predicate NamesDistinct(rows: seq<Row>) {
    && (forall i, j :: 0 <= i < j < |rows| ==> rows[i].source != rows[j].source)
    && (forall i, j :: 0 <= i < j < |rows| ==> rows[i].target != rows[j].target)
    && (forall i, j :: 0 <= i < |rows| && 0 <= j < |rows| ==> rows[i].source != rows[j].target)
  }

  ghost predicate StructureOk(m: Manifest, dirs: Dirs) {
    && m.version == 1
    && (forall i :: 0 <= i < |m.entries| ==> RowOk(m.entries[i], dirs))
    && NamesDistinct(m.entries)
  }

  /** The row's file is at the name it should have, and its other name is vacant. */
  predicate RowInPlace(row: Row, tree: Tree, moved: bool) {
    var present := if moved then row.target else row.source;
    var other := if moved then row.source else row.target;
    && present in tree
    && Regular(tree[present].stat) && tree[present].stat.nlink == 1
    && SameIdentity(tree[present].stat, row.identity, moved)
    && other !in tree
  }

  ghost predicate ManifestOk(m: Manifest, dirs: Dirs, tree: Tree, moved: bool) {
    && StructureOk(m, dirs)
    && forall i :: 0 <= i < |m.entries| ==> RowInPlace(m.entries[i], tree, moved)
  }

  function Sources(rows: seq<Row>): set<Path> {
    set k | 0 <= k < |rows| :: rows[k].source
  }

  function Targets(rows: seq<Row>): set<Path> {
    set k | 0 <= k < |rows| :: rows[k].target
  }

  lemma NamesAppend(rows: seq<Row>, row: Row)
    ensures Sources(rows + [row]) == Sources(rows) + {row.source}
    ensures Targets(rows + [row]) == Targets(rows) + {row.target}
  {
    var more := rows + [row];
    forall p | p in Sources(rows) + {row.source} ensures p in Sources(more) {
      if p == row.source { assert more[|rows|].source == p; }
      else { var k :| 0 <= k < |rows| && rows[k].source == p; assert more[k].source == p; }
    }
    forall p | p in Targets(rows) + {row.target} ensures p in Targets(more) {
      if p == row.target { assert more[|rows|].target == p; }
      else { var k :| 0 <= k < |rows| && rows[k].target == p; assert more[k].target == p; }
    }
  }

  /** The check made for each row against the names collected so far. */
  ghost predicate Collected(rows: seq<Row>, dirs: Dirs) {
    && (forall i :: 0 <= i < |rows| ==> RowOk(rows[i], dirs))
    && (forall i, j :: 0 <= i < j < |rows| ==> rows[i].source != rows[j].source)
    && (forall i, j :: 0 <= i < j < |rows| ==> rows[i].target != rows[j].target)
  }

  lemma CollectOne(rows: seq<Row>, row: Row, dirs: Dirs)
    requires Collected(rows, dirs)
    ensures Collected(rows + [row], dirs) <==>
              RowOk(row, dirs) && row.source !in Sources(rows) && row.target !in Targets(rows)
  {
    hide RowOk;
    var more := rows + [row];
    assert more[|rows|] == row;
    assert forall k :: 0 <= k < |rows| ==> more[k] == rows[k];
  }

  lemma CollectedPrefix(rows: seq<Row>, n: nat, dirs: Dirs)
    requires n <= |rows| && Collected(rows, dirs)
    ensures Collected(rows[..n], dirs)
  {
  }

  /** The two sets of names are disjoint exactly when no source is a target. */
  lemma CollectedStructure(m: Manifest, dirs: Dirs)
    ensures StructureOk(m, dirs) <==> m.version == 1 && Collected(m.entries, dirs) && Sources(m.entries) !! Targets(m.entries)
  {
    var rows := m.entries;
    assert forall i, j :: 0 <= i < |rows| && 0 <= j < |rows| && rows[i].source == rows[j].target ==>
      rows[i].source in Sources(rows) && rows[i].source in Targets(rows);
  }

  lemma NothingCollected(dirs: Dirs)
    ensures Collected([], dirs) && Sources([]) == {} && Targets([]) == {}
  {
  }

  method ValidateStructure(m: Manifest, dirs: Dirs) returns (ok: bool)
    ensures ok <==> StructureOk(m, dirs)
  {
    hide StructureOk, Collected, RowOk, Sources, Targets;
    CollectedStructure(m, dirs);
    NothingCollected(dirs);
    if m.version != 1 { return false; }
    var rows := m.entries;
    var sources: set<Path>, targets: set<Path> := {}, {};
    for i := 0 to |rows|
      invariant sources == Sources(rows[..i]) && targets == Targets(rows[..i])
      invariant Collected(rows[..i], dirs)
    {
      var row := rows[i];
      assert rows[..i + 1] == rows[..i] + [row];
      NamesAppend(rows[..i], row);
      CollectOne(rows[..i], row, dirs);
      if !RowOk(row, dirs) || row.source in sources || row.target in targets {
        if Collected(rows, dirs) { CollectedPrefix(rows, i + 1, dirs); }
        return false;
      }
      sources := sources + {row.source};
      targets := targets + {row.target};
    }
    assert rows[..|rows|] == rows;
    ok := sources !! targets;
  }

  method ValidateManifest(m: Manifest, dirs: Dirs, tree: Tree, moved: bool) returns (ok: bool)
    ensures ok <==> ManifestOk(m, dirs, tree, moved)
  {
    var structure := ValidateStructure(m, dirs);
    if !structure { return false; }
    for i := 0 to |m.entries|
      invariant forall k :: 0 <= k < i ==> RowInPlace(m.entries[k], tree, moved)
    {
      if !RowInPlace(m.entries[i], tree, moved) { return false; }
    }
    return true;
  }

  // ---- Planning ----

  datatype SelectedValue =
    | Text(text: string)
    | Resolved(localIso: string, precision: string, zoneBasis: string, status: string, confidence: string)

  /** A decision; the size and time of its source are optional evidence, the time in nanoseconds or milliseconds. */
  datatype Decision = Decision(source: Path, value: SelectedValue, size: Option<nat>, mtimeNs: Option<int>, mtimeMs: Option<real>)

  function DecisionValue(d: Decision): Option<string> {
    match d.value
    case Text(text) => Some(text)
    case Resolved(iso, precision, zone, status, confidence) =>
      if status != "resolved" || confidence !in {"high", "medium"} || precision != "second" || zone == "date-only"
      then None else Some(iso)
  }

  /** What `plan` demands of one decision. */
  predicate Plannable(d: Decision, dirs: Dirs, tree: Tree) {
    var selected := DecisionValue(d);
    && selected.Some? && SelectedName(d.source.name, selected.value).Some?
    && d.source in tree && Regular(tree[d.source].stat) && tree[d.source].stat.nlink == 1
    && (d.size.Some? ==> d.size.value == tree[d.source].stat.size)
    && (d.mtimeNs.Some? ==> d.mtimeNs.value == tree[d.source].stat.mtimeNs)
    && (d.mtimeMs.Some? ==> -0.01 <= d.mtimeMs.value - tree[d.source].stat.mtimeNs as real / 1000000.0 <= 0.01)
    && d.source.dir in dirs
  }

  function TargetFor(d: Decision, counter: nat): Path
    requires DecisionValue(d).Some? && SelectedName(d.source.name, DecisionValue(d).value).Some?
  {
    Path(d.source.dir, Candidate(SelectedName(d.source.name, DecisionValue(d).value).value, counter))
  }

  ghost predicate Taken(path: Path, tree: Tree, earlier: seq<Row>) {
    path in tree || exists k :: 0 <= k < |earlier| && earlier[k].target == path
  }

  /** The target is the first candidate name that neither the tree nor an earlier row uses. */
  ghost predicate LeastFree(d: Decision, target: Path, tree: Tree, earlier: seq<Row>)
    requires DecisionValue(d).Some? && SelectedName(d.source.name, DecisionValue(d).value).Some?
  {
    exists counter: nat {:trigger TargetFor(d, counter)} ::
      && target == TargetFor(d, counter)
      && !Taken(target, tree, earlier)
      && forall c: nat :: c < counter ==> Taken(TargetFor(d, c), tree, earlier)
  }

  ghost predicate Planned(m: Manifest, decisions: seq<Decision>, dirs: Dirs, tree: Tree) {
    && m.version == 1 && |m.entries| == |decisions|
    && forall i :: 0 <= i < |decisions| ==>
         && Plannable(decisions[i], dirs, tree)
         && RowPlanned(decisions[i], m.entries[i], dirs, tree, m.entries[..i])
  }

  ghost predicate RowPlanned(d: Decision, row: Row, dirs: Dirs, tree: Tree, earlier: seq<Row>)
    requires Plannable(d, dirs, tree)
  {
    && row.source == d.source && row.selected == DecisionValue(d).value
    && row.identity == tree[d.source].stat && row.parent == dirs[d.source.dir]
    && LeastFree(d, row.target, tree, earlier)
  }

  ghost predicate SourcesDistinct(decisions: seq<Decision>) {
    forall i, j :: 0 <= i < j < |decisions| ==> decisions[i].source != decisions[j].source
  }

  /** Among the first `n` counters at most `|taken|` can be taken. */
  lemma {:induction false} CandidatesFill(d: Decision, n: nat, taken: set<Path>)
    requires DecisionValue(d).Some? && SelectedName(d.source.name, DecisionValue(d).value).Some?
    requires forall c: nat :: c < n ==> TargetFor(d, c) in taken
    ensures n <= |taken|
  {
    if n > 0 {
      var last := TargetFor(d, n - 1);
      forall c: nat | c < n - 1 ensures TargetFor(d, c) in taken - {last} {
        if TargetFor(d, c) == last {
          CandidatesDistinct(SelectedName(d.source.name, DecisionValue(d).value).value, c, n - 1);
        }
      }
      CandidatesFill(d, n - 1, taken - {last});
    }
  }

  /** The counter loop of `plan`: it ends, at the least free counter. */
  method ChooseTarget(d: Decision, tree: Tree, reserved: set<Path>, ghost earlier: seq<Row>) returns (target: Path)
    requires DecisionValue(d).Some? && SelectedName(d.source.name, DecisionValue(d).value).Some?
    requires reserved == Targets(earlier)
    ensures LeastFree(d, target, tree, earlier)
  {
    var counter := 0;
    while true
      invariant forall c: nat :: c < counter ==> TargetFor(d, c) in tree.Keys + reserved
      decreases |tree.Keys + reserved| - counter
    {
      target := TargetFor(d, counter);
      if target !in reserved && target !in tree {
        assert forall p :: Taken(p, tree, earlier) <==> p in tree.Keys + reserved;
        assert target == TargetFor(d, counter);
        return;
      }
      counter := counter + 1;
      CandidatesFill(d, counter, tree.Keys + reserved);
    }
  }

  lemma PlannedAppend(rows: seq<Row>, decisions: seq<Decision>, row: Row, d: Decision, dirs: Dirs, tree: Tree)
    requires Planned(Manifest(1, rows), decisions, dirs, tree)
    requires Plannable(d, dirs, tree) && RowPlanned(d, row, dirs, tree, rows)
    ensures Planned(Manifest(1, rows + [row]), decisions + [d], dirs, tree)
  {
    var more, all := rows + [row], decisions + [d];
    forall i | 0 <= i < |all|
      ensures Plannable(all[i], dirs, tree) && RowPlanned(all[i], more[i], dirs, tree, more[..i])
    {
      assert more[..i] == rows[..i];
      if i == |rows| { assert rows[..i] == rows; } else { assert all[i] == decisions[i]; }
    }
  }

  lemma NothingPlanned(dirs: Dirs, tree: Tree)
    ensures Planned(Manifest(1, []), [], dirs, tree) && Targets([]) == {}
  {
  }

  lemma AllPlannable(m: Manifest, decisions: seq<Decision>, dirs: Dirs, tree: Tree)
    requires Planned(m, decisions, dirs, tree)
    ensures forall i :: 0 <= i < |decisions| ==> Plannable(decisions[i], dirs, tree)
  {
  }

  lemma PlannableParts(d: Decision, dirs: Dirs, tree: Tree)
    requires Plannable(d, dirs, tree)
    ensures DecisionValue(d).Some? && SelectedName(d.source.name, DecisionValue(d).value).Some?
    ensures d.source in tree && d.source.dir in dirs
  {
  }

  // ---- The order of the decisions ----

  function PathText(p: Path): string {
    p.dir + "/" + p.name
  }

  predicate SourceLess(a: Decision, b: Decision) {
    Less(PathText(a.source), PathText(b.source))
  }

  predicate Sorted(decisions: seq<Decision>) {
    forall i, j :: 0 <= i < j < |decisions| ==> !SourceLess(decisions[j], decisions[i])
  }

  /** Sorting by source path. */
  method SortBySource(decisions: seq<Decision>) returns (ordered: seq<Decision>)
    ensures Sorted(ordered) && multiset(ordered) == multiset(decisions)
  {
    hide SourceLess;
    ordered := [];
    assert decisions[..0] == [];
    for i := 0 to |decisions|
      invariant Sorted(ordered) && multiset(ordered) == multiset(decisions[..i])
    {
      var d, k := decisions[i], 0;
      while k < |ordered| && !SourceLess(d, ordered[k])
        invariant k <= |ordered| && forall j :: 0 <= j < k ==> !SourceLess(d, ordered[j])
      {
        k := k + 1;
      }
      InsertSorted(ordered, d, k);
      hide Sorted;
      assert decisions[..i + 1] == decisions[..i] + [d] && ordered == ordered[..k] + ordered[k..];
      ordered := ordered[..k] + [d] + ordered[k..];
    }
    assert decisions[..|decisions|] == decisions;
  }

  lemma InsertSorted(ordered: seq<Decision>, d: Decision, k: nat)
    requires Sorted(ordered) && k <= |ordered|
    requires (forall j :: 0 <= j < k ==> !SourceLess(d, ordered[j])) && (k < |ordered| ==> SourceLess(d, ordered[k]))
    ensures Sorted(ordered[..k] + [d] + ordered[k..])
  {
    hide Less, PathText;
    forall j | k <= j < |ordered| ensures !SourceLess(ordered[j], d) {
      if SourceLess(ordered[j], d) {
        LessTransitive(PathText(ordered[j].source), PathText(d.source), PathText(ordered[k].source));
        if j == k { LessIrreflexive(PathText(ordered[k].source)); }
      }
    }
  }

  function SourceSet(decisions: seq<Decision>): set<Path> {
    set d | d in decisions :: d.source
  }

  lemma {:induction false} DistinctSize(decisions: seq<Decision>)
    ensures |SourceSet(decisions)| <= |decisions|
    ensures SourcesDistinct(decisions) <==> |SourceSet(decisions)| == |decisions|
  {
    if decisions == [] {
      assert SourceSet(decisions) == {};
    } else {
      hide SourceSet, SourcesDistinct;
      var n := |decisions| - 1;
      DistinctSize(decisions[..n]);
      assert decisions == decisions[..n] + [decisions[n]];
      SourcesAppend(decisions[..n], decisions[n]);
    }
  }

  lemma SourcesAppend(front: seq<Decision>, last: Decision)
    ensures SourceSet(front + [last]) == SourceSet(front) + {last.source}
    ensures SourcesDistinct(front + [last]) <==> SourcesDistinct(front) && last.source !in SourceSet(front)
  {
    var all, n := front + [last], |front|;
    assert all[n] == last && forall k :: 0 <= k < n ==> all[k] == front[k];
    if last.source in SourceSet(front) {
      var k :| 0 <= k < n && front[k].source == last.source;
      assert all[k].source == all[n].source;
    }
  }

  /** Reordering keeps distinct sources distinct. */
  lemma Reordered(a: seq<Decision>, b: seq<Decision>)
    requires multiset(a) == multiset(b)
    ensures SourcesDistinct(a) <==> SourcesDistinct(b)
    ensures ToSet(a) == ToSet(b)
  {
    assert |a| == |multiset(a)| == |b|;
    assert forall d :: d in a <==> d in multiset(a);
    assert forall d :: d in b <==> d in multiset(b);
    assert SourceSet(a) == SourceSet(b);
    DistinctSize(a);
    DistinctSize(b);
  }

  lemma PlannableReordered(a: seq<Decision>, b: seq<Decision>, dirs: Dirs, tree: Tree)
    requires ToSet(a) == ToSet(b)
    ensures (forall i :: 0 <= i < |a| ==> Plannable(a[i], dirs, tree)) <==> (forall i :: 0 <= i < |b| ==> Plannable(b[i], dirs, tree))
  {
    hide Plannable;
    forall i | 0 <= i < |a| ensures a[i] in b { assert a[i] in ToSet(b); }
    forall i | 0 <= i < |b| ensures b[i] in a { assert b[i] in ToSet(a); }
  }

  /** The names of plannable sources contain no slash, so different sources are different texts. */
  lemma TextsDistinct(a: Decision, b: Decision, dirs: Dirs, tree: Tree)
    requires Plannable(a, dirs, tree) && Plannable(b, dirs, tree) && PathText(a.source) == PathText(b.source)
    ensures a.source == b.source
  {
    NoSlash(a.source.name);
    NoSlash(b.source.name);
    var t, m, n := PathText(a.source), |a.source.dir|, |b.source.dir|;
    assert t[m] == '/' && t[n] == '/' && t[m + 1..] == a.source.name && t[n + 1..] == b.source.name;
    assert t[..m] == a.source.dir && t[..n] == b.source.dir;
  }

  lemma NoSlash(name: string)
    requires DateOnly(name).Some?
    ensures '/' !in name
  {
    var rest := name[10..];
    var dot := IndexOf(rest, '.');
    assert name == name[..10] + rest[..dot] + rest[dot..];
    assert name[..10] == name[..4] + ['-'] + name[5..7] + ['-'] + name[8..10];
    assert forall k :: 0 <= k < |rest[..dot]| && k > 0 ==> rest[..dot][k] == rest[..dot][1..][k - 1];
    assert rest[dot] == '.';
  }

  lemma SourceLessOrders()
    ensures StrictOrder(SourceLess)
  {
    hide Less, PathText;
    forall d ensures !SourceLess(d, d) { LessIrreflexive(PathText(d.source)); }
    forall a, b, c | SourceLess(a, b) && SourceLess(b, c) ensures SourceLess(a, c) {
      LessTransitive(PathText(a.source), PathText(b.source), PathText(c.source));
    }
  }

  lemma SortedAscends(decisions: seq<Decision>, dirs: Dirs, tree: Tree)
    requires Sorted(decisions) && SourcesDistinct(decisions)
    requires forall d :: d in decisions ==> Plannable(d, dirs, tree)
    ensures Ascending(SourceLess, decisions)
  {
    hide Plannable, Less, PathText;
    forall i, j | 0 <= i < j < |decisions| ensures SourceLess(decisions[i], decisions[j]) {
      LessTotal(PathText(decisions[i].source), PathText(decisions[j].source));
      if PathText(decisions[i].source) == PathText(decisions[j].source) {
        TextsDistinct(decisions[i], decisions[j], dirs, tree);
      }
    }
  }

  /** There is only one plan for decisions in a given order. */
  lemma {:induction false} PlannedOnce(m: Manifest, n: Manifest, decisions: seq<Decision>, dirs: Dirs, tree: Tree, k: nat)
    requires Planned(m, decisions, dirs, tree) && Planned(n, decisions, dirs, tree) && k <= |decisions|
    ensures m.entries[..k] == n.entries[..k]
  {
    hide Plannable, RowPlanned;
    if k > 0 {
      PlannedOnce(m, n, decisions, dirs, tree, k - 1);
      var d, earlier := decisions[k - 1], m.entries[..k - 1];
      var row, other := m.entries[k - 1], n.entries[k - 1];
      RowOnce(d, row, other, dirs, tree, earlier);
      assert m.entries[..k] == earlier + [row] && n.entries[..k] == earlier + [other];
    }
  }

  lemma RowOnce(d: Decision, row: Row, other: Row, dirs: Dirs, tree: Tree, earlier: seq<Row>)
    requires Plannable(d, dirs, tree) && RowPlanned(d, row, dirs, tree, earlier) && RowPlanned(d, other, dirs, tree, earlier)
    ensures row == other
  {
    hide LeastFree, SelectedName;
    TargetOnce(d, row.target, other.target, tree, earlier);
    PlannableParts(d, dirs, tree);
    assert row.source.dir == other.source.dir;
  }

  lemma TargetOnce(d: Decision, target: Path, other: Path, tree: Tree, earlier: seq<Row>)
    requires DecisionValue(d).Some? && SelectedName(d.source.name, DecisionValue(d).value).Some?
    requires LeastFree(d, target, tree, earlier) && LeastFree(d, other, tree, earlier)
    ensures target == other
  {
  }

  /** The manifest of these decisions, taken in the order of their source paths. */
  ghost predicate PlanOf(m: Manifest, decisions: seq<Decision>, dirs: Dirs, tree: Tree) {
    exists ordered :: Sorted(ordered) && multiset(ordered) == multiset(decisions) && Planned(m, ordered, dirs, tree)
  }

  /** The plan is a function of which decisions there are: their order does not matter. */
  lemma PlanIgnoresOrder(m: Manifest, n: Manifest, a: seq<Decision>, b: seq<Decision>, dirs: Dirs, tree: Tree)
    requires multiset(a) == multiset(b) && SourcesDistinct(a)
    requires PlanOf(m, a, dirs, tree) && PlanOf(n, b, dirs, tree)
    ensures m == n
  {
    hide Plannable, RowPlanned, Sorted, SourceLess;
    var s :| Sorted(s) && multiset(s) == multiset(a) && Planned(m, s, dirs, tree);
    var t :| Sorted(t) && multiset(t) == multiset(b) && Planned(n, t, dirs, tree);
    Reordered(a, s);
    Reordered(s, t);
    AllPlannable(m, s, dirs, tree);
    AllPlannable(n, t, dirs, tree);
    SourceLessOrders();
    SortedAscends(s, dirs, tree);
    SortedAscends(t, dirs, tree);
    AscendingUnique(SourceLess, s, t);
    PlannedOnce(m, n, s, dirs, tree, |s|);
    assert m.entries[..|s|] == m.entries && n.entries[..|s|] == n.entries;
  }

  /**
   Plans one row for every decision, in the order of the source paths; None stands for the errors the
   original raises. It reads the tree and changes nothing.
   */
  method Plan(decisions: seq<Decision>, dirs: Dirs, tree: Tree) returns (plan: Option<Manifest>)
    ensures plan.Some? <==> SourcesDistinct(decisions) && forall i :: 0 <= i < |decisions| ==> Plannable(decisions[i], dirs, tree)
    ensures plan.Some? ==> PlanOf(plan.value, decisions, dirs, tree)
    ensures plan.Some? ==> ManifestOk(plan.value, dirs, tree, false)
  {
    hide Plannable, Planned, ManifestOk, SourcesDistinct, Sorted;
    var ordered := SortBySource(decisions);
    Reordered(ordered, decisions);
    PlannableReordered(ordered, decisions, dirs, tree);
    plan := PlanRows(ordered, dirs, tree);
  }

  /** The loop over the sorted decisions. */
  method PlanRows(decisions: seq<Decision>, dirs: Dirs, tree: Tree) returns (plan: Option<Manifest>)
    ensures plan.Some? <==> SourcesDistinct(decisions) && forall i :: 0 <= i < |decisions| ==> Plannable(decisions[i], dirs, tree)
    ensures plan.Some? ==> Planned(plan.value, decisions, dirs, tree)
    ensures plan.Some? ==> ManifestOk(plan.value, dirs, tree, false)
  {
    hide Planned, Plannable, LeastFree, ManifestOk, SelectedName;
    NothingPlanned(dirs, tree);
    var entries: seq<Row> := [];
    var reserved: set<Path>, seen: set<Path> := {}, {};
    for i := 0 to |decisions|
      invariant |entries| == i
      invariant reserved == Targets(entries)
      invariant seen == set k | 0 <= k < i :: decisions[k].source
      invariant SourcesDistinct(decisions[..i])
      invariant Planned(Manifest(1, entries), decisions[..i], dirs, tree)
    {
      var d := decisions[i];
      if d.source in seen {
        ghost var k :| 0 <= k < i && decisions[k].source == d.source;
        return None;
      }
      seen := seen + {d.source};
      if !Plannable(d, dirs, tree) { return None; }
      PlannableParts(d, dirs, tree);
      var target := ChooseTarget(d, tree, reserved, entries);
      reserved := reserved + {target};
      var row := Row(d.source, target, DecisionValue(d).value, tree[d.source].stat, dirs[d.source.dir]);
      NamesAppend(entries, row);
      PlannedAppend(entries, decisions[..i], row, d, dirs, tree);
      assert decisions[..i + 1] == decisions[..i] + [d];
      entries := entries + [row];
    }
    assert decisions[..|decisions|] == decisions;
    PlannedIsValid(Manifest(1, entries), decisions, dirs, tree);
    AllPlannable(Manifest(1, entries), decisions, dirs, tree);
    return Some(Manifest(1, entries));
  }

  /** A plan passes the validation that `apply` runs first, on the tree it was made from. */
  lemma PlannedIsValid(m: Manifest, decisions: seq<Decision>, dirs: Dirs, tree: Tree)
    requires Planned(m, decisions, dirs, tree) && SourcesDistinct(decisions)
    ensures ManifestOk(m, dirs, tree, false)
  {
    forall i | 0 <= i < |m.entries|
      ensures RowOk(m.entries[i], dirs) && RowInPlace(m.entries[i], tree, false)
    {
      var d, row := decisions[i], m.entries[i];
      assert RowPlanned(d, row, dirs, tree, m.entries[..i]);
      var counter: nat :| row.target == TargetFor(d, counter) && !Taken(row.target, tree, m.entries[..i]);
      CandidateAccepted(SelectedName(row.source.name, row.selected).value, counter);
    }
    forall i, j | 0 <= i < j < |m.entries|
      ensures m.entries[i].target != m.entries[j].target
    {
      assert RowPlanned(decisions[j], m.entries[j], dirs, tree, m.entries[..j]);
      assert m.entries[..j][i] == m.entries[i];
    }
    forall i, j | 0 <= i < |m.entries| && 0 <= j < |m.entries|
      ensures m.entries[i].source != m.entries[j].target
    {
      assert RowPlanned(decisions[j], m.entries[j], dirs, tree, m.entries[..j]);
      assert m.entries[i].source in tree;
    }
  }
}
