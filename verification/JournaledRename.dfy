/**
 The journaled renames of the migration: `apply` and `rollback` write a ledger of intents and
 completions around no-replace renames, and `recover` reconciles ledger and tree after the
 process died anywhere. Every method takes `mayDie`: when it is set the process may be killed
 between any two of its steps, and inside a ledger append after any number of bytes.
 */
module JournaledRename {
  import opened LineLog
  import opened Migration

  datatype Status = Intent | Moved | RollbackIntent | RolledBack

  /** The records of the ledger. `Start` carries the digest of the manifest. */
  datatype Event = Start(digest: int) | Mark(status: Status, index: int)

  datatype Outcome = Done | Died | Raised

  datatype Command = Do | Resume | Undo

  // ---- The ledger as a value ----

  function NonEmpty(lines: seq<Bytes>): seq<Bytes> {
    if lines == [] then []
    else
      var front, last := NonEmpty(lines[..|lines| - 1]), lines[|lines| - 1];
      if last == [] then front else front + [last]
  }

  /** The records of a whole ledger; None if a line is not JSON. */
  function ReadAll(codec: Codec<Event>, raw: Bytes): Option<seq<Event>> {
    DecodeAll(codec, NonEmpty(Lines(raw)))
  }

  /** What the ledger's bytes say once a torn last line is cut off. */
  function Readable(codec: Codec<Event>, raw: Bytes): Option<seq<Event>> {
    ReadAll(codec, Complete(raw))
  }

  /** The last status the ledger records for a row. */
  function State(events: seq<Event>, index: int): Option<Status> {
    if events == [] then None
    else
      var last := events[|events| - 1];
      if last.Mark? && last.index == index then Some(last.status)
      else State(events[..|events| - 1], index)
  }

  /** The indices of the `moved` records, in ledger order. */
  function MovedIndices(events: seq<Event>): seq<int> {
    if events == [] then []
    else
      var last := events[|events| - 1];
      MovedIndices(events[..|events| - 1]) + (if last.Mark? && last.status == Moved then [last.index] else [])
  }

  predicate Backward(state: Option<Status>) {
    state == Some(RollbackIntent) || state == Some(RolledBack)
  }

  predicate HasMoved(state: Option<Status>) {
    state == Some(Moved) || Backward(state)
  }

  ghost predicate RollbackBegun(events: seq<Event>) {
    exists i {:trigger State(events, i)} :: Backward(State(events, i))
  }

  lemma StateAppend(events: seq<Event>, e: Event, i: int)
    ensures State(events + [e], i) == if e.Mark? && e.index == i then Some(e.status) else State(events, i)
    ensures MovedIndices(events + [e]) == MovedIndices(events) + (if e.Mark? && e.status == Moved then [e.index] else [])
  {
    assert (events + [e])[..|events|] == events;
  }

  function StateIn(states: map<int, Status>, index: int): Option<Status> {
    if index in states then Some(states[index]) else None
  }

  lemma StateAppendAll(events: seq<Event>, e: Event)
    ensures forall i :: State(events + [e], i) == if e.Mark? && e.index == i then Some(e.status) else State(events, i)
  {
    forall i ensures State(events + [e], i) == if e.Mark? && e.index == i then Some(e.status) else State(events, i) {
      StateAppend(events, e, i);
    }
  }

  /** The loop of `_recover` over the ledger: the last status of every row, or an unexpected record. */
  method CollectStates(events: seq<Event>, rows: nat) returns (ok: bool, states: map<int, Status>)
    requires events != [] && events[0].Start?
    ensures ok <==> forall k :: 1 <= k < |events| ==> events[k].Mark? && 0 <= events[k].index < rows
    ensures ok ==> forall i :: StateIn(states, i) == State(events, i)
  {
    ok, states := true, map[];
    assert events[..1] == [events[0]] && [events[0]][..0] == [];
    for k := 1 to |events|
      invariant forall i :: StateIn(states, i) == State(events[..k], i)
      invariant forall j :: 1 <= j < k ==> events[j].Mark? && 0 <= events[j].index < rows
    {
      var e := events[k];
      if !e.Mark? || !(0 <= e.index < rows) { return false, map[]; }
      assert events[..k + 1] == events[..k] + [e];
      StateAppendAll(events[..k], e);
      states := states[e.index := e.status];
    }
    assert events[..|events|] == events;
  }

  // ---- Ledger and tree together ----

  /** The row's file never left its source. */
  predicate AtHome(row: Row, home: Tree, tree: Tree) {
    row.source in home && row.source in tree && tree[row.source] == home[row.source] && row.target !in tree
  }

  /** The row's file is at its target and nothing is at its source. */
  predicate Arrived(row: Row, home: Tree, tree: Tree) {
    row.source in home && row.target in tree && SameObject(tree[row.target], home[row.source]) && row.source !in tree
  }

  /** The row's file is back at its source; its ctime may have changed. */
  predicate Returned(row: Row, home: Tree, tree: Tree) {
    row.source in home && row.source in tree && SameObject(tree[row.source], home[row.source]) && row.target !in tree
  }

  /** Where a row's file can be, given the last durable record about it. */
  predicate RowFits(row: Row, home: Tree, tree: Tree, state: Option<Status>) {
    match state
    case None => AtHome(row, home, tree)
    case Some(Intent) => AtHome(row, home, tree) || Arrived(row, home, tree)
    case Some(Moved) => Arrived(row, home, tree)
    case Some(RollbackIntent) => Arrived(row, home, tree) || Returned(row, home, tree)
    case Some(RolledBack) => Returned(row, home, tree)
  }

  ghost predicate IsRowName(rows: seq<Row>, p: Path) {
    exists i :: 0 <= i < |rows| && (rows[i].source == p || rows[i].target == p)
  }

  predicate SameAt(a: Tree, b: Tree, p: Path) {
    (p in a <==> p in b) && (p in a ==> a[p] == b[p])
  }

  ghost predicate OthersKept(rows: seq<Row>, home: Tree, tree: Tree) {
    forall p {:trigger SameAt(home, tree, p)} :: !IsRowName(rows, p) ==> SameAt(home, tree, p)
  }

  predicate JournalShape(m: Manifest, digest: int, events: seq<Event>) {
    events == [] || (
      && events[0] == Start(digest)
      && forall k :: 1 <= k < |events| ==> events[k].Mark? && 0 <= events[k].index < |m.entries|)
  }

  ghost predicate RowsFit(rows: seq<Row>, home: Tree, tree: Tree, events: seq<Event>) {
    forall i {:trigger State(events, i)} :: 0 <= i < |rows| ==> RowFits(rows[i], home, tree, State(events, i))
  }

  ghost predicate AllMoved(n: nat, events: seq<Event>) {
    forall i {:trigger State(events, i)} :: 0 <= i < n ==> HasMoved(State(events, i))
  }

  /** One `moved` record for every row that has moved, none for the others. */
  ghost predicate MovesCounted(n: nat, events: seq<Event>) {
    forall i :: multiset(MovedIndices(events))[i] == MovesDue(n, events, i)
  }

  function MovesDue(n: nat, events: seq<Event>, i: int): nat {
    if 0 <= i < n && HasMoved(State(events, i)) then 1 else 0
  }

  predicate BackwardMark(e: Event) {
    e.Mark? && Backward(Some(e.status))
  }

  /** Once a rollback is recorded for a row, the row's last record is of a rollback. */
  ghost predicate BackwardForGood(events: seq<Event>) {
    forall k {:trigger events[k]} :: 0 <= k < |events| && BackwardMark(events[k]) ==> Backward(State(events, events[k].index))
  }

  lemma AnyRollbackIsBegun(events: seq<Event>)
    requires BackwardForGood(events)
    ensures AnyRollback(events) <==> RollbackBegun(events)
  {
    if AnyRollback(events) {
      var k :| 0 <= k < |events| && BackwardMark(events[k]);
      assert Backward(State(events, events[k].index));
    }
    if RollbackBegun(events) {
      var i :| Backward(State(events, i));
      StateIsRecorded(events, i);
    }
  }

  lemma {:induction false} StateIsRecorded(events: seq<Event>, i: int)
    requires State(events, i).Some?
    ensures Mark(State(events, i).value, i) in events
  {
    var n := |events| - 1;
    if events[n] != Mark(State(events, i).value, i) { StateIsRecorded(events[..n], i); }
  }

  /** The test of `rollback` for records of an earlier rollback. */
  predicate AnyRollback(events: seq<Event>) {
    exists k :: 0 <= k < |events| && BackwardMark(events[k])
  }

  /**
   The invariant of every run: starting from the tree `home`, ledger and tree agree. Each row's
   file is at exactly one of its two names, as its last record allows, no other name changed,
   each row has exactly one `moved` record once it moved, and a rollback begins only when
   every row has moved.
   */
  ghost predicate Consistent(m: Manifest, digest: int, home: Tree, tree: Tree, events: seq<Event>) {
    && JournalShape(m, digest, events)
    && RowsFit(m.entries, home, tree, events)
    && OthersKept(m.entries, home, tree)
    && MovesCounted(|m.entries|, events)
    && (RollbackBegun(events) ==> AllMoved(|m.entries|, events))
    && BackwardForGood(events)
  }

  /** The tree an apply starts from: `_validate_manifest` passed on it. */
  ghost predicate Validated(m: Manifest, dirs: Dirs, home: Tree) {
    ManifestOk(m, dirs, home, false)
  }

  lemma RowValidated(m: Manifest, dirs: Dirs, home: Tree, index: nat)
    requires Validated(m, dirs, home) && index < |m.entries|
    ensures RowInPlace(m.entries[index], home, false) && RowOk(m.entries[index], dirs) && NamesDistinct(m.entries)
  {
  }

  lemma RowFitsNow(m: Manifest, digest: int, home: Tree, tree: Tree, events: seq<Event>, index: nat)
    requires Consistent(m, digest, home, tree, events) && index < |m.entries|
    ensures RowFits(m.entries[index], home, tree, State(events, index))
  {
  }

  predicate NextStatus(before: Option<Status>, status: Status) {
    match status
    case Intent => before == None
    case Moved => before == Some(Intent)
    case RollbackIntent => before == Some(Moved)
    case RolledBack => before == Some(RollbackIntent)
  }

  lemma CountAt(n: nat, events: seq<Event>, index: int, status: Status, i: int)
    requires multiset(MovedIndices(events))[i] == MovesDue(n, events, i) && 0 <= index < n
    requires NextStatus(State(events, index), status)
    ensures multiset(MovedIndices(events + [Mark(status, index)]))[i] == MovesDue(n, events + [Mark(status, index)], i)
  {
    hide State, MovedIndices;
    var before := MovedIndices(events);
    StateAppend(events, Mark(status, index), i);
    if status == Moved {
      assert multiset(before + [index]) == multiset(before) + multiset{index};
    } else {
      assert before + [] == before;
    }
  }

  lemma CountOne(n: nat, events: seq<Event>, index: int, status: Status)
    requires MovesCounted(n, events) && 0 <= index < n
    requires NextStatus(State(events, index), status)
    ensures MovesCounted(n, events + [Mark(status, index)])
  {
    forall i ensures multiset(MovedIndices(events + [Mark(status, index)]))[i] == MovesDue(n, events + [Mark(status, index)], i) {
      CountAt(n, events, index, status, i);
    }
  }

  /** Recording a row's next status keeps the invariant when the row's file is where the record says. */
  lemma MarkKeeps(m: Manifest, digest: int, home: Tree, tree: Tree, events: seq<Event>, index: int, status: Status)
    requires Consistent(m, digest, home, tree, events) && events != []
    requires 0 <= index < |m.entries|
    requires NextStatus(State(events, index), status)
    requires RowFits(m.entries[index], home, tree, Some(status))
    requires status == RollbackIntent ==> AllMoved(|m.entries|, events)
    ensures Consistent(m, digest, home, tree, events + [Mark(status, index)])
    ensures forall i :: State(events + [Mark(status, index)], i) == if i == index then Some(status) else State(events, i)
  {
    var e := Mark(status, index);
    var more := events + [e];
    forall i ensures State(more, i) == if i == index then Some(status) else State(events, i) {
      StateAppend(events, e, i);
    }
    CountOne(|m.entries|, events, index, status);
    if RollbackBegun(more) && status != RollbackIntent {
      var i :| Backward(State(more, i));
      assert Backward(State(events, i));
    }
  }

  /** `after` is `before` with one file renamed; its ctime may be new. */
  ghost predicate RenamedOne(before: Tree, after: Tree, from: Path, to: Path) {
    && from in before && to !in before && from !in after && to in after
    && SameObject(after[to], before[from])
    && forall p {:trigger SameAt(before, after, p)} :: p != from && p != to ==> SameAt(before, after, p)
  }

  /** Renaming a row's file keeps the invariant while the row's record is an intent. */
  lemma RenameKeeps(m: Manifest, digest: int, home: Tree, tree: Tree, after: Tree, events: seq<Event>, index: int)
    requires Consistent(m, digest, home, tree, events) && NamesDistinct(m.entries)
    requires 0 <= index < |m.entries|
    requires State(events, index) == Some(Intent) ==>
               RenamedOne(tree, after, m.entries[index].source, m.entries[index].target)
    requires State(events, index) == Some(RollbackIntent) ==>
               RenamedOne(tree, after, m.entries[index].target, m.entries[index].source)
    requires State(events, index) in {Some(Intent), Some(RollbackIntent)}
    ensures Consistent(m, digest, home, after, events)
  {
    var rows := m.entries;
    var row := rows[index];
    forall i | 0 <= i < |rows| ensures RowFits(rows[i], home, after, State(events, i)) {
      if i != index {
        DistinctRows(rows, i, index);
        assert SameAt(tree, after, rows[i].source) && SameAt(tree, after, rows[i].target);
      } else {
        assert RowFits(row, home, tree, State(events, index));
      }
    }
    forall p | !IsRowName(rows, p) ensures SameAt(home, after, p) {
      assert IsRowName(rows, row.source) && IsRowName(rows, row.target);
      assert SameAt(home, tree, p) && SameAt(tree, after, p);
    }
  }

  lemma DistinctRows(rows: seq<Row>, i: int, j: int)
    requires NamesDistinct(rows) && 0 <= i < |rows| && 0 <= j < |rows| && i != j
    ensures rows[i].source != rows[j].source && rows[i].target != rows[j].target
    ensures rows[i].source != rows[j].target && rows[i].target != rows[j].source
  {
  }

  /** All rows applied: files at their targets, one `moved` record each. */
  ghost predicate AllApplied(m: Manifest, home: Tree, tree: Tree, events: seq<Event>) {
    forall i {:trigger State(events, i)} :: 0 <= i < |m.entries| ==> State(events, i) == Some(Moved) && Arrived(m.entries[i], home, tree)
  }

  /** All rows rolled back. */
  ghost predicate AllReturned(m: Manifest, home: Tree, tree: Tree, events: seq<Event>) {
    forall i {:trigger State(events, i)} :: 0 <= i < |m.entries| ==> State(events, i) == Some(RolledBack) && Returned(m.entries[i], home, tree)
  }

  /** Rollback undoes apply: every name maps to the object it mapped to before, and to nothing else. */
  lemma ReturnedIsHome(m: Manifest, dirs: Dirs, digest: int, home: Tree, tree: Tree, events: seq<Event>)
    requires Validated(m, dirs, home)
    requires Consistent(m, digest, home, tree, events) && AllReturned(m, home, tree, events)
    ensures tree.Keys == home.Keys
    ensures forall p :: p in home ==> SameObject(tree[p], home[p])
  {
    forall p ensures (p in tree <==> p in home) && (p in home ==> SameObject(tree[p], home[p])) {
      if IsRowName(m.entries, p) {
        var i :| 0 <= i < |m.entries| && (m.entries[i].source == p || m.entries[i].target == p);
        assert RowInPlace(m.entries[i], home, false);
        assert State(events, i) == Some(RolledBack);
      } else {
        assert SameAt(home, tree, p);
      }
    }
  }

  function Range(n: nat): seq<int> {
    seq(n, i => i)
  }

  lemma {:induction false} RangeOnce(n: nat)
    ensures forall i :: multiset(Range(n))[i] == if 0 <= i < n then 1 else 0
  {
    if n > 0 {
      assert Range(n) == Range(n - 1) + [n - 1];
      RangeOnce(n - 1);
    }
  }

  /** Rollback's own test of the ledger, `sorted(moved) == list(range(n))`, passes exactly when every row is recorded as moved. */
  lemma LedgerProves(m: Manifest, digest: int, home: Tree, tree: Tree, events: seq<Event>)
    requires Consistent(m, digest, home, tree, events)
    ensures multiset(MovedIndices(events)) == multiset(Range(|m.entries|)) <==> AllMoved(|m.entries|, events)
  {
    var n, moved := |m.entries|, multiset(MovedIndices(events));
    RangeOnce(n);
    if moved == multiset(Range(n)) {
      forall i | 0 <= i < n ensures HasMoved(State(events, i)) {
        assert moved[i] == MovesDue(n, events, i);
      }
    }
    if AllMoved(n, events) {
      forall i ensures moved[i] == multiset(Range(n))[i] {
        assert moved[i] == MovesDue(n, events, i);
      }
    }
  }

  // ---- Safety without any assumption ----

  /** A file with the identity the manifest recorded is at the row's final name, and its other name is vacant. */
  predicate Settled(row: Row, tree: Tree, reverse: bool) {
    var present := if reverse then row.source else row.target;
    var other := if reverse then row.target else row.source;
    present in tree && SameIdentity(tree[present].stat, row.identity, true) && other !in tree
  }

  predicate AllSettled(rows: seq<Row>, n: int, tree: Tree, reverse: bool) {
    forall i :: 0 <= i < n && i < |rows| ==> Settled(rows[i], tree, reverse)
  }

  /** Settling one more row leaves the earlier ones settled. */
  lemma SettledStep(rows: seq<Row>, done: nat, mid: Tree, after: Tree, reverse: bool)
    requires NamesDistinct(rows) && done < |rows| && AllSettled(rows, done, mid, reverse) && Settled(rows[done], after, reverse)
    requires forall p {:trigger SameAt(mid, after, p)} :: p != rows[done].source && p != rows[done].target ==> SameAt(mid, after, p)
    ensures AllSettled(rows, done + 1, after, reverse)
  {
    hide SameIdentity;
    forall i | 0 <= i < done ensures Settled(rows[i], after, reverse) {
      DistinctRows(rows, i, done);
      assert SameAt(mid, after, rows[i].source) && SameAt(mid, after, rows[i].target);
    }
  }

  /** A row's file is where it was, or at the row's other name, which was vacant. */
  predicate RowKept(row: Row, before: Tree, after: Tree) {
    || (SameAt(before, after, row.source) && SameAt(before, after, row.target))
    || (&& row.source in before && row.target !in before && row.source !in after && row.target in after
        && SameObject(after[row.target], before[row.source]))
    || (&& row.target in before && row.source !in before && row.target !in after && row.source in after
        && SameObject(after[row.source], before[row.target]))
  }

  /** No file is lost or overwritten and no name outside the manifest changes, whatever tree and ledger were found. */
  ghost predicate NothingLost(rows: seq<Row>, before: Tree, after: Tree) {
    && (forall i :: 0 <= i < |rows| ==> RowKept(rows[i], before, after))
    && OthersKept(rows, before, after)
  }

  /** The rows before `done` may have moved, the others are untouched. */
  ghost predicate KeptSoFar(rows: seq<Row>, done: int, before: Tree, after: Tree) {
    && (forall i :: 0 <= i < |rows| ==> RowKept(rows[i], before, after))
    && (forall i :: done <= i < |rows| && 0 <= i ==> SameAt(before, after, rows[i].source) && SameAt(before, after, rows[i].target))
    && OthersKept(rows, before, after)
  }

  lemma KeptStep(rows: seq<Row>, done: nat, before: Tree, mid: Tree, after: Tree)
    requires NamesDistinct(rows) && done < |rows| && KeptSoFar(rows, done, before, mid)
    requires RowKept(rows[done], mid, after)
    requires forall p {:trigger SameAt(mid, after, p)} :: p != rows[done].source && p != rows[done].target ==> SameAt(mid, after, p)
    ensures KeptSoFar(rows, done + 1, before, after)
  {
    var row := rows[done];
    forall i | 0 <= i < |rows| && i != done
      ensures RowKept(rows[i], before, after)
      ensures i > done ==> SameAt(before, after, rows[i].source) && SameAt(before, after, rows[i].target)
    {
      DistinctRows(rows, i, done);
      assert SameAt(mid, after, rows[i].source) && SameAt(mid, after, rows[i].target);
    }
    assert SameAt(before, mid, row.source) && SameAt(before, mid, row.target);
    forall p | !IsRowName(rows, p) ensures SameAt(before, after, p) {
      assert IsRowName(rows, row.source) && IsRowName(rows, row.target);
      assert SameAt(before, mid, p) && SameAt(mid, after, p);
    }
  }

  // ---- Reading after an append ----

  lemma NonEmptyAppend(lines: seq<Bytes>, line: Bytes)
    requires line != []
    ensures NonEmpty(lines + [line]) == NonEmpty(lines) + [line]
  {
    assert (lines + [line])[..|lines|] == lines;
  }

  lemma ReadableWhole(codec: Codec<Event>, raw: Bytes)
    requires Whole(raw)
    ensures Complete(raw) == raw
    ensures Readable(codec, raw) == ReadAll(codec, raw)
  {
  }

  /** A whole appended line adds its record; a part of it adds nothing. */
  lemma ReadableAppend(codec: Codec<Event>, raw: Bytes, e: Event)
    requires Lawful(codec) && codec.valid(e) && Whole(raw) && Readable(codec, raw).Some?
    ensures Whole(raw + LineOf(codec, e))
    ensures Readable(codec, raw + LineOf(codec, e)) == Some(Readable(codec, raw).value + [e])
  {
    var line := codec.encode(e);
    assert line != [] by { assert codec.decode(line) == Some(e) && codec.decode([]) == None; }
    SplitLine(raw, line);
    assert raw + line + [LF] == raw + LineOf(codec, e);
    NonEmptyAppend(Lines(raw), line);
    DecodeAppend(codec, NonEmpty(Lines(raw)), line);
  }

  lemma ReadableTorn(codec: Codec<Event>, raw: Bytes, part: Bytes)
    requires Whole(raw) && LF !in part
    ensures Readable(codec, raw + part) == Readable(codec, raw)
  {
    CompleteOfPart(raw, part);
  }

  lemma ReadableComplete(codec: Codec<Event>, raw: Bytes)
    ensures Readable(codec, Complete(raw)) == Readable(codec, raw)
    ensures Whole(Complete(raw))
  {
    CompleteSplit(raw);
  }

  lemma NewLedger(codec: Codec<Event>)
    ensures Whole([]) && Readable(codec, []) == Some([]) && !RollbackBegun([])
  {
  }

  // ---- The disk ----

  class Disk {
    var tree: Tree
    var ledger: Option<Bytes>
    const dirs: Dirs
    const codec: Codec<Event>
    const digestOf: Manifest -> int
    const renameAvailable: bool

    constructor (tree: Tree, dirs: Dirs, codec: Codec<Event>, digestOf: Manifest -> int, renameAvailable: bool)
      ensures this.tree == tree && ledger == None && this.dirs == dirs && this.codec == codec
      ensures this.digestOf == digestOf && this.renameAvailable == renameAvailable
    {
      this.tree, ledger, this.dirs, this.codec := tree, None, dirs, codec;
      this.digestOf, this.renameAvailable := digestOf, renameAvailable;
    }

    /** The ledger's format can carry every record. */
    ghost predicate Valid() {
      Lawful(codec) && forall e :: codec.valid(e)
    }

    ghost function Events(): Option<seq<Event>>
      reads this`ledger
    {
      if ledger.None? then None else Readable(codec, ledger.value)
    }

    ghost predicate Open()
      reads this`ledger
    {
      Valid() && ledger.Some? && Events().Some?
    }

    /** Open, and no torn line at the end: ready to append. */
    ghost predicate Ready()
      reads this`ledger
    {
      Open() && Whole(ledger.value)
    }

    /** The run that began on `home` left ledger and tree in agreement. */
    ghost predicate Holds(m: Manifest, home: Tree)
      reads this
    {
      Open() && Consistent(m, digestOf(m), home, tree, Events().value)
    }

    ghost predicate Started()
      reads this`ledger
    {
      Open() && Events().value != []
    }

    ghost predicate Reversing()
      reads this`ledger
    {
      Open() && RollbackBegun(Events().value)
    }

    method Append(e: Event, mayDie: bool) returns (died: bool)
      requires Ready()
      modifies this`ledger
      ensures Open()
      ensures !mayDie ==> !died
      ensures !died ==> Ready() && Events().value == old(Events().value) + [e]
      ensures died ==> Events().value in {old(Events().value), old(Events().value) + [e]}
    {
      var line := LineOf(codec, e);
      var raw := ledger.value;
      died := false;
      if mayDie { died := *; }
      var written := |line|;
      if died { written :| 0 <= written <= |line|; }
      ledger := Some(raw + line[..written]);
      ReadableAppend(codec, raw, e);
      assert line[..|line|] == line;
      if written < |line| {
        assert line[..written] == codec.encode(e)[..written];
        ReadableTorn(codec, raw, line[..written]);
      }
    }

    /** Reads the ledger, cutting off a torn last line first. */
    method ReadLedger(mayDie: bool) returns (r: Outcome, events: seq<Event>)
      requires Valid()
      modifies this`ledger
      ensures Events() == old(Events()) && (ledger.Some? <==> old(ledger).Some?)
      ensures r.Raised? ==> Events().None?
      ensures r.Done? ==> Ready() && Events() == Some(events)
      ensures !mayDie ==> !r.Died?
    {
      events := [];
      if ledger.None? { return Raised, []; }
      var raw := ledger.value;
      ReadableComplete(codec, raw);
      if raw != [] && raw[|raw| - 1] != LF {
        if mayDie { var died := *; if died { return Died, []; } }
        ledger := Some(Complete(raw));
        if mayDie { var died := *; if died { return Died, []; } }
      }
      assert Whole(ledger.value);
      ReadableWhole(codec, ledger.value);
      var read := ReadAll(codec, ledger.value);
      if read.None? { return Raised, []; }
      return Done, read.value;
    }

    method SyncDirectory(mayDie: bool) returns (died: bool)
      ensures !mayDie ==> !died
    {
      died := false;
      if mayDie { died := *; }
    }

    predicate Renamable(from: Path, to: Path, identity: Identity, parent: DirIdentity, moved: bool)
      reads this`tree
    {
      && from.dir == to.dir && from.dir in dirs && dirs[from.dir] == parent
      && from in tree && Regular(tree[from].stat) && SameIdentity(tree[from].stat, identity, moved)
      && to !in tree
    }

    method RenameNoReplace(from: Path, to: Path, identity: Identity, parent: DirIdentity, moved: bool, mayDie: bool)
      returns (r: Outcome)
      modifies this`tree
      ensures !mayDie ==> !r.Died?
      ensures r.Raised? <==> !old(Renamable(from, to, identity, parent, moved))
      ensures r.Raised? ==> tree == old(tree)
      ensures r.Done? ==> RenamedOne(old(tree), tree, from, to)
      ensures r.Died? ==> tree == old(tree) || RenamedOne(old(tree), tree, from, to)
    {
      if from.dir != to.dir || from.dir !in dirs || dirs[from.dir] != parent { return Raised; }
      if from !in tree || !Regular(tree[from].stat) || !SameIdentity(tree[from].stat, identity, moved) { return Raised; }
      if to in tree { return Raised; }
      if mayDie { var died := *; if died { return Died; } }
      var file := tree[from];
      var ctime: int := *;
      tree := (tree - {from})[to := file.(stat := file.stat.(ctimeNs := ctime))];
      if mayDie { var died := *; if died { return Died; } }
      return Done;
    }

    /** No file is lost on the row, and nothing else is touched. */
    twostate predicate OnlyRow(row: Row)
      reads this
    {
      && RowKept(row, old(tree), tree)
      && forall p {:trigger SameAt(old(tree), tree, p)} :: p != row.source && p != row.target ==> SameAt(old(tree), tree, p)
    }

    /** The run is consistent and going forward. */
    ghost predicate Forward(m: Manifest, home: Tree)
      reads this
    {
      Holds(m, home) && Validated(m, dirs, home) && Started() && !Reversing()
    }

    /** The run is consistent and every row has moved: the state a rollback works in. */
    ghost predicate AllForward(m: Manifest, home: Tree)
      reads this
    {
      Holds(m, home) && Validated(m, dirs, home) && Started() && AllMoved(|m.entries|, Events().value)
    }

    twostate predicate OtherStatesKept(index: int)
      reads this`ledger
    {
      old(Open()) && Open() &&
      forall i :: i != index ==> State(Events().value, i) == State(old(Events().value), i)
    }

    /** One row of `apply`, or of a forward `recover`, whose record says it still has to move. */
    method MoveRow(m: Manifest, index: nat, recorded: bool, mayDie: bool, ghost home: Tree) returns (r: Outcome)
      requires Ready() && index < |m.entries|
      modifies this`tree, this`ledger
      ensures Open() && (r.Done? ==> Ready()) && (!mayDie ==> !r.Died?)
      ensures old(Events().value) <= Events().value
      ensures r.Done? ==> Settled(m.entries[index], tree, false)
      ensures OnlyRow(m.entries[index])
      ensures old(Forward(m, home)) && old(AtHome(m.entries[index], home, tree))
              && old(State(Events().value, index)) == (if recorded then Some(Intent) else None) ==>
                Forward(m, home) && !r.Raised? && OtherStatesKept(index)
                && (r.Done? ==> State(Events().value, index) == Some(Moved))
    {
      hide Consistent, Validated, RowOk, NamesDistinct, Complete, ReadAll, State;
      var row := m.entries[index];
      ghost var before, was := tree, Events().value;
      ghost var good := Forward(m, home) && AtHome(row, home, tree)
                        && State(was, index) == (if recorded then Some(Intent) else None);
      if !recorded {
        var died := Append(Mark(Intent, index), mayDie);
        if good { ForwardMark(m, home, was, index, Intent); }
        if died { return Died; }
      }
      ghost var intended := Events().value;
      if good { RowValidated(m, dirs, home, index); }
      r := RenameNoReplace(row.source, row.target, row.identity, row.parent, false, mayDie);
      if good && tree != before { RenameKeeps(m, digestOf(m), home, before, tree, intended, index); }
      if !r.Done? { return; }
      var died := Append(Mark(Moved, index), mayDie);
      if good { ForwardMark(m, home, intended, index, Moved); }
      if died { return Died; }
    }

    lemma ForwardMark(m: Manifest, home: Tree, events: seq<Event>, index: nat, status: Status)
      requires Consistent(m, digestOf(m), home, tree, events) && events != [] && !RollbackBegun(events)
      requires index < |m.entries| && NextStatus(State(events, index), status) && status in {Intent, Moved}
      requires RowFits(m.entries[index], home, tree, Some(status))
      ensures Consistent(m, digestOf(m), home, tree, events + [Mark(status, index)])
      ensures !RollbackBegun(events + [Mark(status, index)])
      ensures forall i :: State(events + [Mark(status, index)], i) == if i == index then Some(status) else State(events, i)
    {
      MarkKeeps(m, digestOf(m), home, tree, events, index, status);
      assert forall i :: Backward(State(events + [Mark(status, index)], i)) ==> Backward(State(events, i));
    }

    /** One row of a forward `recover`; `state` is the row's last record. */
    method ResumeForward(m: Manifest, index: nat, state: Option<Status>, mayDie: bool, ghost home: Tree) returns (r: Outcome)
      requires Ready() && index < |m.entries|
      modifies this`tree, this`ledger
      ensures Open() && (r.Done? ==> Ready()) && (!mayDie ==> !r.Died?)
      ensures old(Events().value) <= Events().value
      ensures r.Done? ==> Settled(m.entries[index], tree, false)
      ensures OnlyRow(m.entries[index])
      ensures old(Forward(m, home)) && old(State(Events().value, index)) == state ==>
                Forward(m, home) && !r.Raised? && OtherStatesKept(index)
                && (r.Done? ==> State(Events().value, index) == Some(Moved))
    {
      hide Consistent, Validated, RowOk, NamesDistinct, Complete, ReadAll, State;
      var row := m.entries[index];
      ghost var good := Forward(m, home) && State(Events().value, index) == state;
      if good {
        RowValidated(m, dirs, home, index);
        RowFitsNow(m, digestOf(m), home, tree, Events().value, index);
      }
      var sourceMatches := row.source in tree && SameIdentity(tree[row.source].stat, row.identity, false);
      var targetMatches := row.target in tree && SameIdentity(tree[row.target].stat, row.identity, true);
      if state == Some(Moved) {
        return if !targetMatches || row.source in tree then Raised else Done;
      }
      if targetMatches && row.source !in tree && state == Some(Intent) {
        ghost var was := Events().value;
        var died := SyncDirectory(mayDie);
        if died { return Died; }
        died := Append(Mark(Moved, index), mayDie);
        if good { ForwardMark(m, home, was, index, Moved); }
        return if died then Died else Done;
      }
      if !sourceMatches || row.target in tree { return Raised; }
      r := MoveRow(m, index, state == Some(Intent), mayDie, home);
    }

    lemma BackwardMarkKeeps(m: Manifest, home: Tree, events: seq<Event>, index: nat, status: Status)
      requires Consistent(m, digestOf(m), home, tree, events) && events != [] && AllMoved(|m.entries|, events)
      requires index < |m.entries| && NextStatus(State(events, index), status) && status in {RollbackIntent, RolledBack}
      requires RowFits(m.entries[index], home, tree, Some(status))
      ensures Consistent(m, digestOf(m), home, tree, events + [Mark(status, index)])
      ensures AllMoved(|m.entries|, events + [Mark(status, index)])
      ensures RollbackBegun(events + [Mark(status, index)])
      ensures forall i :: State(events + [Mark(status, index)], i) == if i == index then Some(status) else State(events, i)
    {
      MarkKeeps(m, digestOf(m), home, tree, events, index, status);
      assert Backward(State(events + [Mark(status, index)], index));
    }

    /** One row of `rollback`, or of a backward `recover`, whose file is still at its target. */
    method MoveRowBack(m: Manifest, index: nat, recorded: bool, mayDie: bool, ghost home: Tree) returns (r: Outcome)
      requires Ready() && index < |m.entries|
      modifies this`tree, this`ledger
      ensures Open() && (r.Done? ==> Ready()) && (!mayDie ==> !r.Died?)
      ensures old(Events().value) <= Events().value
      ensures r.Done? ==> Settled(m.entries[index], tree, true)
      ensures OnlyRow(m.entries[index])
      ensures old(AllForward(m, home)) && old(Arrived(m.entries[index], home, tree))
              && old(State(Events().value, index)) == (if recorded then Some(RollbackIntent) else Some(Moved)) ==>
                AllForward(m, home) && !r.Raised? && OtherStatesKept(index)
                && (old(Reversing()) || r.Done? ==> Reversing())
                && (r.Done? ==> State(Events().value, index) == Some(RolledBack))
    {
      hide Consistent, Validated, RowOk, NamesDistinct, Complete, ReadAll, State;
      var row := m.entries[index];
      ghost var before, was := tree, Events().value;
      ghost var good := AllForward(m, home) && Arrived(row, home, tree)
                        && State(was, index) == (if recorded then Some(RollbackIntent) else Some(Moved));
      if !recorded {
        var died := Append(Mark(RollbackIntent, index), mayDie);
        if good { BackwardMarkKeeps(m, home, was, index, RollbackIntent); }
        if died { return Died; }
      }
      ghost var intended := Events().value;
      if good { RowValidated(m, dirs, home, index); }
      r := RenameNoReplace(row.target, row.source, row.identity, row.parent, true, mayDie);
      if good && tree != before { RenameKeeps(m, digestOf(m), home, before, tree, intended, index); }
      if good { assert Backward(State(intended, index)); }
      if !r.Done? { return; }
      var died := Append(Mark(RolledBack, index), mayDie);
      if good { BackwardMarkKeeps(m, home, intended, index, RolledBack); }
      if died { return Died; }
    }

    /** One row of a backward `recover`. */
    method ResumeBackward(m: Manifest, index: nat, state: Option<Status>, mayDie: bool, ghost home: Tree) returns (r: Outcome)
      requires Ready() && index < |m.entries|
      modifies this`tree, this`ledger
      ensures Open() && (r.Done? ==> Ready()) && (!mayDie ==> !r.Died?)
      ensures old(Events().value) <= Events().value
      ensures r.Done? ==> Settled(m.entries[index], tree, true)
      ensures OnlyRow(m.entries[index])
      ensures old(AllForward(m, home)) && old(Reversing()) && old(State(Events().value, index)) == state ==>
                AllForward(m, home) && Reversing() && !r.Raised? && OtherStatesKept(index)
                && (r.Done? ==> State(Events().value, index) == Some(RolledBack))
    {
      hide Consistent, Validated, RowOk, NamesDistinct, Complete, ReadAll, State;
      var row := m.entries[index];
      ghost var good := AllForward(m, home) && Reversing() && State(Events().value, index) == state;
      if good {
        RowValidated(m, dirs, home, index);
        RowFitsNow(m, digestOf(m), home, tree, Events().value, index);
      }
      var sourceMatches := row.source in tree && SameIdentity(tree[row.source].stat, row.identity, true);
      var targetMatches := row.target in tree && SameIdentity(tree[row.target].stat, row.identity, true);
      if state == Some(RolledBack) {
        return if !sourceMatches || row.target in tree then Raised else Done;
      }
      if state == Some(RollbackIntent) && sourceMatches && row.target !in tree {
        ghost var was := Events().value;
        var died := SyncDirectory(mayDie);
        if died { return Died; }
        died := Append(Mark(RolledBack, index), mayDie);
        if good { BackwardMarkKeeps(m, home, was, index, RolledBack); }
        return if died then Died else Done;
      }
      if row.source in tree || !targetMatches { return Raised; }
      r := MoveRowBack(m, index, state == Some(RollbackIntent), mayDie, home);
    }

    /** Resolves every row in order, forward or backward; the loop of `_recover`. */
    method ResumeRows(m: Manifest, states: map<int, Status>, reverse: bool, mayDie: bool, ghost home: Tree) returns (r: Outcome)
      requires Ready() && NamesDistinct(m.entries)
      modifies this`tree, this`ledger
      ensures Open() && (r.Done? ==> Ready()) && (!mayDie ==> !r.Died?)
      ensures old(Events().value) <= Events().value
      ensures r.Done? ==> AllSettled(m.entries, |m.entries|, tree, reverse)
      ensures NothingLost(m.entries, old(tree), tree)
      ensures old(Resumable(m, states, reverse, home)) ==>
                Holds(m, home) && !r.Raised? && (Reversing() <==> reverse)
                && (r.Done? ==> if reverse then AllReturned(m, home, tree, Events().value) else AllApplied(m, home, tree, Events().value))
    {
      ghost var start := tree;
      ghost var good := Resumable(m, states, reverse, home);
      for index := 0 to |m.entries|
        invariant Ready() && old(Events().value) <= Events().value
        invariant KeptSoFar(m.entries, index, start, tree)
        invariant AllSettled(m.entries, index, tree, reverse)
        invariant good ==> Resuming(m, states, reverse, index, home)
      {
        ghost var before := tree;
        r := ResumeRow(m, index, states, reverse, mayDie, home);
        KeptStep(m.entries, index, start, before, tree);
        if !r.Done? { return; }
        SettledStep(m.entries, index, before, tree, reverse);
      }
      r := Done;
      if good { ResumedAll(m, states, reverse, home); }
    }

    lemma ResumedAll(m: Manifest, states: map<int, Status>, reverse: bool, home: Tree)
      requires Resuming(m, states, reverse, |m.entries|, home)
      ensures if reverse then AllReturned(m, home, tree, Events().value) else AllApplied(m, home, tree, Events().value)
    {
      forall i | 0 <= i < |m.entries| ensures RowFits(m.entries[i], home, tree, State(Events().value, i)) {
      }
    }

    /** Rows before `index` are resolved, the others are as the ledger was read. */
    ghost predicate Resuming(m: Manifest, states: map<int, Status>, reverse: bool, index: int, home: Tree)
      reads this
    {
      && (if reverse then AllForward(m, home) && Reversing() else Forward(m, home))
      && (forall i {:trigger State(Events().value, i)} :: index <= i < |m.entries| ==> State(Events().value, i) == StateIn(states, i))
      && (forall i {:trigger State(Events().value, i)} :: 0 <= i < index ==> State(Events().value, i) == Some(if reverse then RolledBack else Moved))
    }

    method ResumeRow(m: Manifest, index: nat, states: map<int, Status>, reverse: bool, mayDie: bool, ghost home: Tree) returns (r: Outcome)
      requires Ready() && index < |m.entries|
      modifies this`tree, this`ledger
      ensures Open() && (r.Done? ==> Ready()) && (!mayDie ==> !r.Died?)
      ensures old(Events().value) <= Events().value
      ensures r.Done? ==> Settled(m.entries[index], tree, reverse)
      ensures OnlyRow(m.entries[index])
      ensures old(Resuming(m, states, reverse, index, home)) ==>
                && !r.Raised?
                && (if reverse then AllForward(m, home) && Reversing() else Forward(m, home))
                && (r.Done? ==> Resuming(m, states, reverse, index + 1, home))
    {
      var state := StateIn(states, index);
      ghost var was := Events().value;
      assert Resuming(m, states, reverse, index, home) ==> State(was, index) == state;
      if reverse {
        r := ResumeBackward(m, index, state, mayDie, home);
      } else {
        r := ResumeForward(m, index, state, mayDie, home);
      }
    }

    /** The states collected from the ledger are the ones the run left. */
    ghost predicate Resumable(m: Manifest, states: map<int, Status>, reverse: bool, home: Tree)
      reads this
    {
      && Holds(m, home) && Validated(m, dirs, home) && Started()
      && (reverse <==> Reversing())
      && forall i :: 0 <= i < |m.entries| ==> State(Events().value, i) == StateIn(states, i)
    }

    /**
     Finishes an interrupted run, forward or backward. With no outside changes it never
     raises once the start record is durable, leaves every row applied (or, once a rollback began,
     every row back home), and may itself die anywhere any number of times. Whatever it
     finds, it loses nothing.
     */
    method Recover(m: Manifest, mayDie: bool, ghost home: Tree) returns (r: Outcome)
      requires Valid()
      modifies this`tree, this`ledger
      ensures !mayDie ==> !r.Died?
      ensures NothingLost(m.entries, old(tree), tree)
      ensures r.Done? ==> exists reverse :: AllSettled(m.entries, |m.entries|, tree, reverse)
      ensures old(ledger).None? ==> !r.Done? && tree == old(tree) && ledger == None
      ensures old(Open()) ==> Open() && old(Events().value) <= Events().value
      ensures old(Holds(m, home)) && Validated(m, dirs, home) ==> Holds(m, home) && (Reversing() <==> old(Reversing()))
      ensures old(Holds(m, home)) && Validated(m, dirs, home) && renameAvailable ==>
                && (r.Raised? ==> !old(Started()) && tree == old(tree) && Events() == old(Events()))
                && (!old(Started()) ==> !r.Done? && tree == old(tree) && Events() == old(Events()))
                && (r.Done? ==> Ready() && if old(Reversing()) then AllReturned(m, home, tree, Events().value)
                                           else AllApplied(m, home, tree, Events().value))
    {
      hide Complete, ReadAll, RowOk, RowInPlace, State, RowFits, MovesCounted;
      ghost var good := Holds(m, home) && Validated(m, dirs, home);
      var structure := ValidateStructure(m, dirs);
      if !structure { return Raised; }
      var events;
      r, events := ReadLedger(mayDie);
      if !r.Done? { return; }
      if events == [] || events[0] != Start(digestOf(m)) { return Raised; }
      var shaped, states := CollectStates(events, |m.entries|);
      if !shaped { return Raised; }
      if !renameAvailable { return Raised; }
      var reverse := exists i :: i in states && Backward(Some(states[i]));
      if good {
        assert reverse <==> exists i :: Backward(StateIn(states, i)) by {
          if reverse { var i :| i in states && Backward(Some(states[i])); assert Backward(StateIn(states, i)); }
        }
        assert reverse <==> RollbackBegun(events);
      }
      r := ResumeRows(m, states, reverse, mayDie, home);
    }

    /** A validated tree with an empty journal is a consistent beginning. */
    lemma Beginning(m: Manifest)
      requires Validated(m, dirs, tree)
      ensures Consistent(m, digestOf(m), tree, tree, [])
      ensures Consistent(m, digestOf(m), tree, tree, [Start(digestOf(m))])
      ensures !RollbackBegun([Start(digestOf(m))])
      ensures forall i :: State([Start(digestOf(m))], i) == None
    {
      var start := [Start(digestOf(m))];
      assert start[..0] == [];
      forall i ensures State(start, i) == None {
        assert State(start, i) == State(start[..0], i);
      }
      hide Validated, State, SameIdentity, RowOk;
      forall i | 0 <= i < |m.entries| ensures AtHome(m.entries[i], tree, tree) {
        RowValidated(m, dirs, tree, i);
      }
      assert MovedIndices([]) == [] && MovedIndices(start) == [] + [];
    }

    /**
     The first run. It raises exactly when validation fails, the platform lacks the rename, or
     a ledger exists, and then changes nothing.
     */
    method Apply(m: Manifest, mayDie: bool) returns (r: Outcome)
      requires Valid()
      modifies this`tree, this`ledger
      ensures !mayDie ==> !r.Died?
      ensures NothingLost(m.entries, old(tree), tree)
      ensures r.Raised? <==> !ManifestOk(m, dirs, old(tree), false) || !renameAvailable || old(ledger).Some?
      ensures r.Raised? ==> tree == old(tree) && ledger == old(ledger)
      ensures !r.Raised? && ledger.None? ==> r.Died? && tree == old(tree)
      ensures !r.Raised? && ledger.Some? ==> Holds(m, old(tree)) && !Reversing()
      ensures !Started() ==> tree == old(tree)
      ensures r.Done? ==> Ready() && Started() && AllApplied(m, old(tree), tree, Events().value)
    {
      hide Complete, ReadAll, RowOk, NamesDistinct, Consistent, RowInPlace, State;
      ghost var home := tree;
      var valid := ValidateManifest(m, dirs, tree, false);
      if !valid || !renameAvailable || ledger.Some? { return Raised; }
      Beginning(m);
      NewLedger(codec);
      if mayDie { var died := *; if died { return Died; } }
      ledger := Some([]);
      var died := Append(Start(digestOf(m)), mayDie);
      assert [] + [Start(digestOf(m))] == [Start(digestOf(m))];
      if died { return Died; }
      died := SyncDirectory(mayDie);
      if died { return Died; }
      r := ApplyRows(m, mayDie, home);
    }

    /** Moves every row in order; the loop of a forward `_journaled_rename`. */
    method ApplyRows(m: Manifest, mayDie: bool, ghost home: Tree) returns (r: Outcome)
      requires Ready() && Resuming(m, map[], false, 0, home)
      modifies this`tree, this`ledger
      ensures Open() && (r.Done? ==> Ready()) && (!mayDie ==> !r.Died?)
      ensures old(Events().value) <= Events().value
      ensures NothingLost(m.entries, old(tree), tree)
      ensures Forward(m, home) && !r.Raised?
      ensures r.Done? ==> AllApplied(m, home, tree, Events().value)
    {
      ghost var start := tree;
      for index := 0 to |m.entries|
        invariant Ready() && Forward(m, home) && old(Events().value) <= Events().value
        invariant KeptSoFar(m.entries, index, start, tree)
        invariant Resuming(m, map[], false, index, home)
      {
        ghost var before := tree;
        r := ApplyRow(m, index, mayDie, home);
        KeptStep(m.entries, index, start, before, tree);
        if !r.Done? { return; }
      }
      ResumedAll(m, map[], false, home);
      r := Done;
    }

    method ApplyRow(m: Manifest, index: nat, mayDie: bool, ghost home: Tree) returns (r: Outcome)
      requires Ready() && index < |m.entries|
      requires Resuming(m, map[], false, index, home)
      modifies this`tree, this`ledger
      ensures Open() && (r.Done? ==> Ready()) && (!mayDie ==> !r.Died?)
      ensures old(Events().value) <= Events().value
      ensures OnlyRow(m.entries[index])
      ensures Forward(m, home) && !r.Raised?
      ensures r.Done? ==> Resuming(m, map[], false, index + 1, home)
    {
      ghost var was := Events().value;
      assert State(was, index) == None;
      r := MoveRow(m, index, false, mayDie, home);
    }

    /**
     Undoes a complete apply. On a consistent run it raises exactly when some row is not
     recorded as moved or a rollback has already begun; then only a torn last ledger line is
     cut off.
     */
    method Rollback(m: Manifest, mayDie: bool, ghost home: Tree) returns (r: Outcome)
      requires Valid()
      modifies this`tree, this`ledger
      ensures !mayDie ==> !r.Died?
      ensures NothingLost(m.entries, old(tree), tree)
      ensures r.Done? ==> AllSettled(m.entries, |m.entries|, tree, true)
      ensures old(ledger).None? ==> !r.Done? && tree == old(tree) && ledger == None
      ensures old(Open()) ==> Open() && old(Events().value) <= Events().value
      ensures old(Holds(m, home)) && Validated(m, dirs, home) ==>
                && Holds(m, home)
                && (r.Raised? ==> tree == old(tree) && Events() == old(Events()))
                && (old(Reversing()) ==> Reversing())
      ensures old(Holds(m, home)) && Validated(m, dirs, home) && renameAvailable ==>
                if old(Started()) && old(AllApplied(m, home, tree, Events().value))
                then !r.Raised? && (r.Done? ==> Ready() && AllReturned(m, home, tree, Events().value))
                else !r.Done? && tree == old(tree) && Events() == old(Events())
    {
      hide Complete, ReadAll, RowOk, RowInPlace, State, RowFits, MovesCounted;
      ghost var good := Holds(m, home) && Validated(m, dirs, home);
      var valid := ValidateManifest(m, dirs, tree, true);
      ghost var applied := good && AllApplied(m, home, tree, Events().value);
      if applied { AppliedInPlace(m, home); }
      if !valid || !renameAvailable { return Raised; }
      var events;
      r, events := ReadLedger(mayDie);
      if !r.Done? { return; }
      if events == [] || events[0] != Start(digestOf(m)) { return Raised; }
      if good {
        LedgerProves(m, digestOf(m), home, tree, events);
        AnyRollbackIsBegun(events);
      }
      if multiset(MovedIndices(events)) != multiset(Range(|m.entries|)) || AnyRollback(events) { return Raised; }
      if good { assert Holds(m, home) && Started(); AllMovedIsApplied(m, home); }
      r := RollbackRows(m, mayDie, home);
    }

    /** Moves every row back in order; the loop of a backward `_journaled_rename`. */
    method RollbackRows(m: Manifest, mayDie: bool, ghost home: Tree) returns (r: Outcome)
      requires Ready() && NamesDistinct(m.entries)
      modifies this`tree, this`ledger
      ensures Open() && (r.Done? ==> Ready()) && (!mayDie ==> !r.Died?)
      ensures old(Events().value) <= Events().value
      ensures r.Done? ==> AllSettled(m.entries, |m.entries|, tree, true)
      ensures NothingLost(m.entries, old(tree), tree)
      ensures old(RollingBack(m, 0, home)) ==>
                && !r.Raised? && AllForward(m, home) && (old(Reversing()) ==> Reversing())
                && (r.Done? ==> AllReturned(m, home, tree, Events().value))
    {
      ghost var start := tree;
      ghost var good := RollingBack(m, 0, home);
      for index := 0 to |m.entries|
        invariant Ready() && old(Events().value) <= Events().value
        invariant KeptSoFar(m.entries, index, start, tree)
        invariant AllSettled(m.entries, index, tree, true)
        invariant good ==> RollingBack(m, index, home) && (old(Reversing()) ==> Reversing())
      {
        ghost var before := tree;
        r := RollbackRow(m, index, mayDie, home);
        KeptStep(m.entries, index, start, before, tree);
        if !r.Done? { return; }
        SettledStep(m.entries, index, before, tree, true);
      }
      if good { RolledBackAll(m, home); }
      r := Done;
    }

    lemma RolledBackAll(m: Manifest, home: Tree)
      requires RollingBack(m, |m.entries|, home)
      ensures AllReturned(m, home, tree, Events().value)
    {
      forall i | 0 <= i < |m.entries| ensures RowFits(m.entries[i], home, tree, State(Events().value, i)) {
      }
    }

    /** With every row recorded as moved and no rollback recorded, all rows are applied. */
    lemma AllMovedIsApplied(m: Manifest, home: Tree)
      requires Holds(m, home) && AllMoved(|m.entries|, Events().value) && !Reversing()
      ensures AllApplied(m, home, tree, Events().value)
    {
      var events := Events().value;
      forall i | 0 <= i < |m.entries| ensures State(events, i) == Some(Moved) && Arrived(m.entries[i], home, tree) {
        assert HasMoved(State(events, i)) && !Backward(State(events, i));
        assert RowFits(m.entries[i], home, tree, State(events, i));
      }
    }

    /** All rows applied: rollback's validation passes and no rollback has begun. */
    lemma AppliedInPlace(m: Manifest, home: Tree)
      requires Holds(m, home) && Validated(m, dirs, home) && AllApplied(m, home, tree, Events().value)
      ensures ManifestOk(m, dirs, tree, true)
      ensures AllMoved(|m.entries|, Events().value) && !Reversing()
    {
      hide Readable, StructureOk, State, MovesCounted, RowsFit, OthersKept;
      var events := Events().value;
      forall i | 0 <= i < |m.entries| ensures RowInPlace(m.entries[i], tree, true) && HasMoved(State(events, i)) {
        assert State(events, i) == Some(Moved) && RowInPlace(m.entries[i], home, false);
      }
      forall i ensures !Backward(State(events, i)) {
        if State(events, i).Some? {
          StateIsRecorded(events, i);
          assert 0 <= i < |m.entries|;
        }
      }
    }

    method RollbackRow(m: Manifest, index: nat, mayDie: bool, ghost home: Tree) returns (r: Outcome)
      requires Ready() && index < |m.entries|
      modifies this`tree, this`ledger
      ensures Open() && (r.Done? ==> Ready()) && (!mayDie ==> !r.Died?)
      ensures old(Events().value) <= Events().value
      ensures r.Done? ==> Settled(m.entries[index], tree, true)
      ensures OnlyRow(m.entries[index])
      ensures old(RollingBack(m, index, home)) ==>
                && !r.Raised? && AllForward(m, home) && (old(Reversing()) ==> Reversing())
                && (r.Done? ==> RollingBack(m, index + 1, home))
    {
      ghost var was := Events().value;
      if RollingBack(m, index, home) {
        assert State(was, index) == Some(Moved);
        assert RowFits(m.entries[index], home, tree, State(was, index));
      }
      r := MoveRowBack(m, index, false, mayDie, home);
    }

    ghost predicate RollingBack(m: Manifest, index: int, home: Tree)
      reads this
    {
      && AllForward(m, home)
      && (forall i {:trigger State(Events().value, i)} :: index <= i < |m.entries| ==> State(Events().value, i) == Some(Moved))
      && (forall i {:trigger State(Events().value, i)} :: 0 <= i < index ==> State(Events().value, i) == Some(RolledBack))
    }

    /** A run on `home` before its start record is durable, with nothing moved, or in agreement with its ledger afterwards. */
    ghost predicate Running(m: Manifest, home: Tree)
      reads this
    {
      (ledger.None? && tree == home) || (Holds(m, home) && (Started() || tree == home))
    }

    /**
     A whole run: any number of commands on a validated tree without a ledger, each of which may
     die anywhere, then one recovery that is not interrupted. If no start record became
     durable, recovery raises and the tree is as it was; otherwise every row is applied or, if a rollback was
     recorded, every row is back home. Commands that are refused change nothing.
     */
    method Session(m: Manifest, commands: seq<Command>, ghost home: Tree) returns (r: Outcome)
      requires Valid() && Validated(m, dirs, home) && renameAvailable && Running(m, home)
      modifies this`tree, this`ledger
      ensures Running(m, home) && (old(Started()) ==> Started())
      ensures r == if Started() then Done else Raised
      ensures !Started() ==> tree == home
      ensures Started() ==> Ready() && if Reversing() then AllReturned(m, home, tree, Events().value)
                                       else AllApplied(m, home, tree, Events().value)
      ensures old(Reversing()) ==> Reversing()
      ensures Reversing() && !old(Reversing()) ==> Undo in commands
    {
      hide Consistent, Validated, AllApplied, AllReturned, NothingLost, ManifestOk, AllSettled, RollbackBegun;
      ghost var started, reversing := Started(), Reversing();
      for k := 0 to |commands|
        invariant Running(m, home)
        invariant (started ==> Started()) && (reversing ==> Reversing())
        invariant Reversing() && !reversing ==> Undo in commands[..k]
      {
        assert commands[..k + 1] == commands[..k] + [commands[k]];
        match commands[k] {
          case Do => r := Apply(m, true);
          case Resume => r := Recover(m, true, home);
          case Undo => r := Rollback(m, true, home);
        }
      }
      assert commands[..|commands|] == commands;
      r := Recover(m, false, home);
    }
  }
}
