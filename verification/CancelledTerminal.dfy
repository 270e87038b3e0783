/**
 Evidence of a cancelled job: the adapter binds the terminal event to the immutable preview rows,
 the planned operations and the ledger of what each operation did.
 */
module CancelledTerminal {
  import opened JavaScript
  import opened LineLog

  datatype Operation = Copy | Move | Skip

  datatype Row = Row(sourcePath: string, targetPath: Option<string>, operation: Operation, size: int)

  datatype Summary = Summary(totalFiles: int, copyFiles: int, moveFiles: int, skippedFiles: int, totalBytes: int)

  datatype Decision = Decision(rowIndex: int, sourcePath: string)

  datatype Planned = Planned(operationIndex: int, operationId: string, sourcePath: string, targetPath: string,
                             bytes: int, decisionRowIndex: int)

  datatype LedgerOutcome = Committed | SkippedEntry | FailedEntry | CancelledEntry

  datatype State = Completed | Skipped | Failed | CancelledBeforeCommit | CommittedSourceRetained | NotAttempted

  /** A ledger entry as it arrives; only a cancelled one may carry a cancellation state. */
  datatype Entry = Entry(operationId: string, outcome: LedgerOutcome, bytes: int, error: Option<string>,
                         cancellationState: Option<State>, sourceRetained: Option<bool>, destinationCommitted: Option<bool>)

  datatype Outcome = Outcome(sourcePath: string, destinationPath: Option<string>, state: State, plannedBytes: int,
                             committedBytes: int, sourceRetained: bool, error: Option<string>)

  datatype Statistics = Statistics(totalFiles: int, processedFiles: int, skippedFiles: int, failedFiles: int, cancelledFiles: int,
                                   unattemptedFiles: int, totalBytes: int, processedBytes: int, committedResidueBytes: int, durationMs: int)

  datatype Failure = Failure(sourcePath: string, error: string)

  datatype Payload = Payload(reason: Option<string>, filesProcessed: int, statistics: Statistics,
                             failures: seq<Failure>, outcomes: seq<Outcome>)

  const NOT_ATTEMPTED := "Not attempted because the job was cancelled"

  predicate Natural(n: int) {
    0 <= n <= MAX_SAFE_INTEGER
  }

  // ---- Preview and audit ----

  predicate RowOk(row: Row) {
    && row.sourcePath != "" && Natural(row.size)
    && (row.operation != Skip ==> row.targetPath.Some?) && (row.targetPath.Some? ==> row.targetPath.value != "")
  }

  function CountOf(rows: seq<Row>, operation: Operation): nat {
    if rows == [] then 0 else CountOf(rows[..|rows| - 1], operation) + if rows[|rows| - 1].operation == operation then 1 else 0
  }

  function SizeOf(rows: seq<Row>): int {
    if rows == [] then 0 else SizeOf(rows[..|rows| - 1]) + rows[|rows| - 1].size
  }

  ghost predicate PreviewOk(rows: seq<Row>, summary: Summary) {
    && (forall i :: 0 <= i < |rows| ==> RowOk(rows[i]))
    && Natural(|rows|) && Natural(SizeOf(rows))
    && summary == Summary(|rows|, CountOf(rows, Copy), CountOf(rows, Move), CountOf(rows, Skip), SizeOf(rows))
  }

  lemma {:induction false} SizeGrows(rows: seq<Row>, k: nat)
    requires k <= |rows| && forall i :: 0 <= i < |rows| ==> RowOk(rows[i])
    ensures SizeOf(rows[..k]) <= SizeOf(rows)
  {
    if k < |rows| {
      assert rows[..|rows| - 1][..k] == rows[..k];
      SizeGrows(rows[..|rows| - 1], k);
    } else {
      assert rows[..k] == rows;
    }
  }

  /** The row checks and the conservation of the summary. */
  method ValidatePreview(rows: seq<Row>, summary: Summary) returns (ok: bool)
    ensures ok <==> PreviewOk(rows, summary)
  {
    var copyFiles, moveFiles, skippedFiles, totalBytes := 0, 0, 0, 0;
    for k := 0 to |rows|
      invariant forall i :: 0 <= i < k ==> RowOk(rows[i])
      invariant copyFiles == CountOf(rows[..k], Copy) && moveFiles == CountOf(rows[..k], Move) && skippedFiles == CountOf(rows[..k], Skip)
      invariant totalBytes == SizeOf(rows[..k]) && Natural(totalBytes)
    {
      assert rows[..k + 1][..k] == rows[..k];
      if !RowOk(rows[k]) { return false; }
      if rows[k].operation == Copy { copyFiles := copyFiles + 1; }
      else if rows[k].operation == Move { moveFiles := moveFiles + 1; }
      else { skippedFiles := skippedFiles + 1; }
      totalBytes := totalBytes + rows[k].size;
      if totalBytes > MAX_SAFE_INTEGER {
        if forall i :: 0 <= i < |rows| ==> RowOk(rows[i]) { SizeGrows(rows, k + 1); }
        return false;
      }
    }
    assert rows[..|rows|] == rows;
    ok := Natural(summary.totalFiles) && summary == Summary(|rows|, copyFiles, moveFiles, skippedFiles, totalBytes);
  }

  predicate DecisionAt(rows: seq<Row>, decisions: seq<Decision>, i: nat)
    requires i < |decisions|
  {
    && 0 <= decisions[i].rowIndex < |rows| && decisions[i].sourcePath == rows[decisions[i].rowIndex].sourcePath
    && (i > 0 ==> decisions[i - 1].rowIndex < decisions[i].rowIndex)
  }

  /** The decisions: in row order, each for the source of its row. */
  ghost predicate DecisionsOk(rows: seq<Row>, decisions: seq<Decision>) {
    forall i :: 0 <= i < |decisions| ==> DecisionAt(rows, decisions, i)
  }

  function DecidedRows(decisions: seq<Decision>): set<int> {
    set d | d in decisions :: d.rowIndex
  }

  ghost predicate OperationOk(rows: seq<Row>, decided: set<int>, operation: Planned) {
    var i := operation.decisionRowIndex;
    && operation.operationId != "" && operation.targetPath != "" && Natural(operation.bytes)
    && i in decided && 0 <= i < |rows|
    && operation.sourcePath == rows[i].sourcePath && rows[i].targetPath == Some(operation.targetPath) && rows[i].size == operation.bytes
  }

  /** The operations: numbered, each for another decided row; as many as there are rows to execute. */
  ghost predicate OperationsOk(rows: seq<Row>, decided: set<int>, operations: seq<Planned>) {
    && (forall k :: 0 <= k < |operations| ==> operations[k].operationIndex == k && OperationOk(rows, decided, operations[k]))
    && (forall j, k :: 0 <= j < k < |operations| ==>
          operations[j].operationId != operations[k].operationId && operations[j].decisionRowIndex != operations[k].decisionRowIndex)
  }

  function Targeted(rows: seq<Row>): set<int> {
    set i | 0 <= i < |rows| && rows[i].targetPath.Some?
  }

  function Executable(rows: seq<Row>): set<int> {
    set i | 0 <= i < |rows| && rows[i].operation != Skip
  }

  ghost predicate AuditOk(rows: seq<Row>, decisions: seq<Decision>, operations: seq<Planned>) {
    && DecisionsOk(rows, decisions) && DecidedRows(decisions) == Targeted(rows)
    && OperationsOk(rows, DecidedRows(decisions), operations) && |operations| == |Executable(rows)|
  }

  lemma NothingDecided()
    ensures DecidedRows([]) == {}
  {
  }

  lemma DecidedAppend(decisions: seq<Decision>, d: Decision)
    ensures DecidedRows(decisions + [d]) == DecidedRows(decisions) + {d.rowIndex}
  {
  }

  method ValidateDecisions(rows: seq<Row>, decisions: seq<Decision>) returns (ok: bool, decided: map<int, string>)
    ensures ok <==> DecisionsOk(rows, decisions)
    ensures ok ==> decided.Keys == DecidedRows(decisions) && forall i :: i in decided ==> 0 <= i < |rows| && decided[i] == rows[i].sourcePath
  {
    hide DecidedRows;
    decided := map[];
    NothingDecided();
    var previous := -1;
    for k := 0 to |decisions|
      invariant previous == (if k == 0 then -1 else decisions[k - 1].rowIndex)
      invariant forall i :: 0 <= i < k ==> DecisionAt(rows, decisions, i) && decisions[i].rowIndex <= previous
      invariant decided.Keys == DecidedRows(decisions[..k])
      invariant forall i :: i in decided ==> 0 <= i < |rows| && decided[i] == rows[i].sourcePath
    {
      var d := decisions[k];
      if d.rowIndex <= previous || d.rowIndex >= |rows| || d.rowIndex < 0 || rows[d.rowIndex].sourcePath != d.sourcePath {
        assert !DecisionAt(rows, decisions, k);
        return false, decided;
      }
      assert DecisionAt(rows, decisions, k);
      hide DecisionAt;
      assert decisions[..k + 1] == decisions[..k] + [d];
      DecidedAppend(decisions[..k], d);
      assert decided[d.rowIndex := d.sourcePath].Keys == decided.Keys + {d.rowIndex};
      decided := decided[d.rowIndex := d.sourcePath];
      previous := d.rowIndex;
    }
    assert decisions[..|decisions|] == decisions;
    ok := true;
  }

  method ValidateOperations(rows: seq<Row>, decided: map<int, string>, operations: seq<Planned>) returns (ok: bool)
    requires forall i :: i in decided ==> 0 <= i < |rows| && decided[i] == rows[i].sourcePath
    ensures ok <==> OperationsOk(rows, decided.Keys, operations)
  {
    var ids: set<string> := {};
    var indexes: set<int> := {};
    for k := 0 to |operations|
      invariant OperationsOk(rows, decided.Keys, operations[..k])
      invariant ids == (set o | o in operations[..k] :: o.operationId) && indexes == set o | o in operations[..k] :: o.decisionRowIndex
    {
      var o := operations[k];
      assert operations[..k + 1] == operations[..k] + [o];
      if o.operationIndex != k || o.operationId == "" || o.targetPath == "" || !Natural(o.bytes) { return false; }
      if o.operationId in ids || o.decisionRowIndex in indexes { return false; }
      if o.decisionRowIndex !in decided || decided[o.decisionRowIndex] != o.sourcePath { return false; }
      if rows[o.decisionRowIndex].targetPath != Some(o.targetPath) || rows[o.decisionRowIndex].size != o.bytes { return false; }
      assert OperationOk(rows, decided.Keys, o);
      hide OperationOk;
      ids, indexes := ids + {o.operationId}, indexes + {o.decisionRowIndex};
    }
    assert operations[..|operations|] == operations;
    ok := true;
  }

  /** The audit that must come with a preview. */
  method ValidateAudit(rows: seq<Row>, decisions: seq<Decision>, operations: seq<Planned>) returns (ok: bool)
    ensures ok <==> AuditOk(rows, decisions, operations)
  {
    var decided: map<int, string>;
    ok, decided := ValidateDecisions(rows, decisions);
    if !ok { return; }
    ok := ValidateOperations(rows, decided, operations);
    ok := ok && |operations| == |Executable(rows)| && decided.Keys == Targeted(rows);
  }

  // ---- The ledger ----

  predicate Blank(s: string) {
    forall i :: 0 <= i < |s| ==> Space(s[i] as int)
  }

  /** The shape of one entry. */
  predicate EntryOk(e: Entry) {
    && e.operationId != "" && Natural(e.bytes)
    && (e.outcome == SkippedEntry ==> e.bytes == 0)
    && (e.error.Some? ==> !Blank(e.error.value))
    && (e.outcome == FailedEntry ==> e.error.Some?)
    && match e.outcome
       case CancelledEntry =>
         && e.sourceRetained == Some(true) && e.destinationCommitted.Some?
         && e.cancellationState == Some(if e.destinationCommitted.value then CommittedSourceRetained else CancelledBeforeCommit)
         && (e.cancellationState == Some(CancelledBeforeCommit) ==> e.bytes == 0)
       case FailedEntry =>
         && e.cancellationState.None? && (e.sourceRetained.None? <==> e.destinationCommitted.None?)
         && (e.destinationCommitted == Some(false) ==> e.bytes == 0)
       case _ => e.cancellationState.None? && e.sourceRetained.None? && e.destinationCommitted.None?
  }

  /** An entry against its planned operation and preview row. */
  predicate EntryFits(e: Entry, operation: Planned, row: Row) {
    && e.bytes <= operation.bytes
    && (e.outcome == Committed ==> e.bytes == operation.bytes)
    && (e.cancellationState == Some(CommittedSourceRetained) ==> e.bytes == operation.bytes && row.operation == Move)
  }

  /** What an adapter holds for a job. */
  datatype Evidence = Evidence(previewId: string, rows: seq<Row>, operations: seq<Planned>, ledger: map<string, Entry>)

  /** The operation planned for a row. */
  function OperationAt(operations: seq<Planned>, index: int): Option<Planned> {
    if operations == [] then None
    else if operations[|operations| - 1].decisionRowIndex == index then Some(operations[|operations| - 1])
    else OperationAt(operations[..|operations| - 1], index)
  }

  function OperationById(operations: seq<Planned>, id: string): Option<Planned> {
    if operations == [] then None
    else if operations[|operations| - 1].operationId == id then Some(operations[|operations| - 1])
    else OperationById(operations[..|operations| - 1], id)
  }

  // ---- What the terminal must say ----

  predicate OutcomeOk(o: Outcome) {
    && o.sourcePath != "" && Natural(o.plannedBytes) && Natural(o.committedBytes) && o.committedBytes <= o.plannedBytes
    && (o.state in {Skipped, CancelledBeforeCommit, NotAttempted} ==> o.committedBytes == 0)
    && (o.state in {CancelledBeforeCommit, CommittedSourceRetained, NotAttempted} ==> o.sourceRetained)
  }

  predicate StatisticsOk(s: Statistics) {
    && Natural(s.totalFiles) && Natural(s.processedFiles) && Natural(s.skippedFiles) && Natural(s.failedFiles)
    && Natural(s.cancelledFiles) && Natural(s.unattemptedFiles) && Natural(s.totalBytes) && Natural(s.processedBytes)
    && Natural(s.committedResidueBytes) && Natural(s.durationMs)
    && s.processedFiles + s.skippedFiles + s.failedFiles + s.cancelledFiles + s.unattemptedFiles == s.totalFiles
    && s.processedBytes + s.committedResidueBytes <= s.totalBytes
  }

  function Count(outcomes: seq<Outcome>, state: State): nat {
    if outcomes == [] then 0 else Count(outcomes[..|outcomes| - 1], state) + if outcomes[|outcomes| - 1].state == state then 1 else 0
  }

  function PlannedBytes(outcomes: seq<Outcome>): int {
    if outcomes == [] then 0 else PlannedBytes(outcomes[..|outcomes| - 1]) + outcomes[|outcomes| - 1].plannedBytes
  }

  /** The bytes committed by the outcomes that completed, or by those that did not. */
  function CommittedBytes(outcomes: seq<Outcome>, completed: bool): int {
    if outcomes == [] then 0
    else CommittedBytes(outcomes[..|outcomes| - 1], completed)
         + if (outcomes[|outcomes| - 1].state == Completed) == completed then outcomes[|outcomes| - 1].committedBytes else 0
  }

  function FailedOf(outcomes: seq<Outcome>): seq<Outcome> {
    if outcomes == [] then []
    else FailedOf(outcomes[..|outcomes| - 1]) + if outcomes[|outcomes| - 1].state == Failed then [outcomes[|outcomes| - 1]] else []
  }

  /** The payload agrees with itself. */
  predicate CancelledOk(p: Payload) {
    var s := p.statistics;
    var failed := FailedOf(p.outcomes);
    && Natural(p.filesProcessed) && StatisticsOk(s)
    && (forall i :: 0 <= i < |p.failures| ==> p.failures[i].sourcePath != "" && p.failures[i].error != "")
    && (forall i :: 0 <= i < |p.outcomes| ==> OutcomeOk(p.outcomes[i]))
    && p.filesProcessed == s.processedFiles && |p.outcomes| == s.totalFiles
    && Count(p.outcomes, Completed) == s.processedFiles && Count(p.outcomes, Skipped) == s.skippedFiles
    && Count(p.outcomes, Failed) == s.failedFiles
    && Count(p.outcomes, CancelledBeforeCommit) + Count(p.outcomes, CommittedSourceRetained) == s.cancelledFiles
    && Count(p.outcomes, NotAttempted) == s.unattemptedFiles && |p.failures| == s.failedFiles
    && (forall i :: 0 <= i < |p.failures| ==>
          i < |failed| && p.failures[i].sourcePath == failed[i].sourcePath && Some(p.failures[i].error) == failed[i].error)
    && PlannedBytes(p.outcomes) == s.totalBytes && CommittedBytes(p.outcomes, true) == s.processedBytes
    && CommittedBytes(p.outcomes, false) == s.committedResidueBytes
  }

  /** The state, bytes, retention and error that the ledger allows for a row; None where nothing is allowed. */
  function ExpectedOutcome(e: Evidence, index: nat): Option<Outcome>
    requires index < |e.rows|
  {
    var row := e.rows[index];
    var base := Outcome(row.sourcePath, row.targetPath, Skipped, row.size, 0, true, None);
    if row.operation == Skip then Some(base)
    else
      var operation := OperationAt(e.operations, index);
      if operation.None? then None
      else if operation.value.operationId !in e.ledger then Some(base.(state := NotAttempted, error := Some(NOT_ATTEMPTED)))
      else
        var entry := e.ledger[operation.value.operationId];
        var state :=
          match entry.outcome
          case Committed => Some(Completed)
          case SkippedEntry => Some(Skipped)
          case FailedEntry => Some(Failed)
          case CancelledEntry => entry.cancellationState;
        var retained :=
          match entry.outcome
          case Committed => row.operation != Move
          case SkippedEntry => true
          case _ => if entry.sourceRetained.Some? then entry.sourceRetained.value else true;
        if state.None? then None
        else Some(base.(state := state.value, committedBytes := entry.bytes, sourceRetained := retained, error := entry.error))
  }

  /** The payload agrees with the preview, the plan and the ledger. */
  ghost predicate BoundTo(e: Evidence, p: Payload) {
    |p.outcomes| == |e.rows| && forall i :: 0 <= i < |e.rows| ==> ExpectedOutcome(e, i) == Some(p.outcomes[i])
  }

  ghost predicate Accepted(e: Evidence, p: Payload) {
    CancelledOk(p) && BoundTo(e, p)
  }

  /** The checks of the binding, row by row. */
  method CheckBinding(e: Evidence, p: Payload) returns (ok: bool)
    ensures ok <==> BoundTo(e, p)
  {
    if |p.outcomes| != |e.rows| { return false; }
    var operationByRowIndex: map<int, Planned> := map[];
    for k := 0 to |e.operations|
      invariant forall i :: (i in operationByRowIndex <==> OperationAt(e.operations[..k], i).Some?)
                            && (i in operationByRowIndex ==> OperationAt(e.operations[..k], i) == Some(operationByRowIndex[i]))
    {
      assert e.operations[..k + 1][..k] == e.operations[..k];
      operationByRowIndex := operationByRowIndex[e.operations[k].decisionRowIndex := e.operations[k]];
    }
    assert e.operations[..|e.operations|] == e.operations;
    for index := 0 to |e.rows|
      invariant forall i :: 0 <= i < index ==> ExpectedOutcome(e, i) == Some(p.outcomes[i])
    {
      var operation := if index in operationByRowIndex then Some(operationByRowIndex[index]) else None;
      ok := CheckOutcome(e, index, p.outcomes[index], operation);
      if !ok { return; }
    }
    ok := true;
  }

  /** One outcome against its row, operation and ledger entry. */
  method CheckOutcome(e: Evidence, index: nat, outcome: Outcome, operation: Option<Planned>) returns (ok: bool)
    requires index < |e.rows| && operation == OperationAt(e.operations, index)
    ensures ok <==> ExpectedOutcome(e, index) == Some(outcome)
  {
    var row := e.rows[index];
    if outcome.sourcePath != row.sourcePath || outcome.destinationPath != row.targetPath || outcome.plannedBytes != row.size {
      return false;
    }
    if row.operation == Skip {
      return outcome.state == Skipped && outcome.committedBytes == 0 && outcome.sourceRetained && outcome.error.None?;
    }
    if operation.None? { return false; }
    if operation.value.operationId !in e.ledger {
      return outcome.state == NotAttempted && outcome.committedBytes == 0 && outcome.sourceRetained && outcome.error == Some(NOT_ATTEMPTED);
    }
    var entry := e.ledger[operation.value.operationId];
    var expectedState := match entry.outcome
      case Committed => Some(Completed)
      case SkippedEntry => Some(Skipped)
      case FailedEntry => Some(Failed)
      case CancelledEntry => entry.cancellationState;
    var expectedRetained :=
      if entry.outcome == Committed then row.operation != Move
      else if entry.outcome == FailedEntry || entry.outcome == CancelledEntry then
        if entry.sourceRetained.Some? then entry.sourceRetained.value else true
      else true;
    ok := && Some(outcome.state) == expectedState && outcome.committedBytes == entry.bytes
          && outcome.sourceRetained == expectedRetained && outcome.error == entry.error;
  }

  // ---- Counting ----

  lemma {:induction false} CountsAreAll(outcomes: seq<Outcome>)
    ensures Count(outcomes, Completed) + Count(outcomes, Skipped) + Count(outcomes, Failed) + Count(outcomes, CancelledBeforeCommit)
            + Count(outcomes, CommittedSourceRetained) + Count(outcomes, NotAttempted) == |outcomes|
  {
    if outcomes != [] { CountsAreAll(outcomes[..|outcomes| - 1]); }
  }

  lemma {:induction false} FailedCount(outcomes: seq<Outcome>)
    ensures |FailedOf(outcomes)| == Count(outcomes, Failed)
    ensures forall o :: o in FailedOf(outcomes) ==> o in outcomes && o.state == Failed
  {
    if outcomes != [] {
      FailedCount(outcomes[..|outcomes| - 1]);
      assert outcomes == outcomes[..|outcomes| - 1] + [outcomes[|outcomes| - 1]];
    }
  }

  /** No more is committed than was planned. */
  lemma {:induction false} BytesConserved(outcomes: seq<Outcome>)
    requires forall i :: 0 <= i < |outcomes| ==> OutcomeOk(outcomes[i])
    ensures 0 <= CommittedBytes(outcomes, true) && 0 <= CommittedBytes(outcomes, false)
    ensures CommittedBytes(outcomes, true) + CommittedBytes(outcomes, false) <= PlannedBytes(outcomes)
  {
    if outcomes != [] {
      assert OutcomeOk(outcomes[|outcomes| - 1]);
      BytesConserved(outcomes[..|outcomes| - 1]);
    }
  }

  lemma {:induction false} PlannedIsSize(rows: seq<Row>, outcomes: seq<Outcome>)
    requires |rows| == |outcomes| && forall i :: 0 <= i < |rows| ==> outcomes[i].plannedBytes == rows[i].size
    ensures PlannedBytes(outcomes) == SizeOf(rows)
  {
    if rows != [] { PlannedIsSize(rows[..|rows| - 1], outcomes[..|outcomes| - 1]); }
  }

  // ---- The main results ----

  /** Two accepted terminals agree on everything but their reason and duration. */
  lemma TerminalIsDetermined(e: Evidence, p: Payload, q: Payload)
    requires Accepted(e, p) && Accepted(e, q)
    ensures q == p.(reason := q.reason, statistics := p.statistics.(durationMs := q.statistics.durationMs))
  {
    forall i | 0 <= i < |e.rows| ensures p.outcomes[i] == q.outcomes[i] {
      assert ExpectedOutcome(e, i) == Some(p.outcomes[i]);
    }
    assert p.outcomes == q.outcomes;
    FailedCount(p.outcomes);
    forall i | 0 <= i < |p.failures| ensures p.failures[i] == q.failures[i] {
      assert Some(p.failures[i].error) == FailedOf(p.outcomes)[i].error == Some(q.failures[i].error);
    }
    assert p.failures == q.failures;
  }

  ghost predicate LedgerOk(e: Evidence) {
    forall k {:trigger e.operations[k]} :: 0 <= k < |e.operations| && e.operations[k].operationId in e.ledger ==>
      && 0 <= e.operations[k].decisionRowIndex < |e.rows| && EntryOk(e.ledger[e.operations[k].operationId])
      && EntryFits(e.ledger[e.operations[k].operationId], e.operations[k], e.rows[e.operations[k].decisionRowIndex])
  }

  /** What the adapter has admitted: a preview, its audit, and ledger entries that fit them. */
  ghost predicate EvidenceOk(e: Evidence) {
    && (forall i :: 0 <= i < |e.rows| ==> RowOk(e.rows[i])) && Natural(|e.rows|) && Natural(SizeOf(e.rows))
    && OperationsOk(e.rows, Targeted(e.rows), e.operations) && |e.operations| == |Executable(e.rows)|
    && LedgerOk(e)
  }

  /** Every planned operation is for a row that is not skipped: a skipped row may have a target, too. */
  predicate PlansOnlyExecutable(e: Evidence) {
    forall k :: 0 <= k < |e.operations| ==> e.operations[k].decisionRowIndex in Executable(e.rows)
  }

  function PlannedRows(operations: seq<Planned>): set<int> {
    set o | o in operations :: o.decisionRowIndex
  }

  lemma {:induction false} PlannedRowsSize(operations: seq<Planned>)
    requires forall j, k :: 0 <= j < k < |operations| ==> operations[j].decisionRowIndex != operations[k].decisionRowIndex
    ensures |PlannedRows(operations)| == |operations|
  {
    if operations == [] {
      assert PlannedRows(operations) == {};
    } else {
      var n := |operations| - 1;
      PlannedRowsSize(operations[..n]);
      assert operations == operations[..n] + [operations[n]];
      assert PlannedRows(operations) == PlannedRows(operations[..n]) + {operations[n].decisionRowIndex};
    }
  }

  lemma {:induction false} OperationAtFinds(operations: seq<Planned>, index: int)
    ensures OperationAt(operations, index).Some? <==> index in PlannedRows(operations)
    ensures OperationAt(operations, index).Some? ==>
              OperationAt(operations, index).value in operations && OperationAt(operations, index).value.decisionRowIndex == index
  {
    if operations != [] {
      var n := |operations| - 1;
      OperationAtFinds(operations[..n], index);
      assert operations == operations[..n] + [operations[n]];
    }
  }

  lemma EqualSize(a: set<int>, b: set<int>)
    requires a <= b && |a| == |b|
    ensures a == b
  {
    assert b == a + (b - a) && |b| == |a| + |b - a|;
    assert b - a == {};
  }

  /** Exactly when only executable rows are planned, every executable row has its operation. */
  lemma PlansAll(e: Evidence)
    requires EvidenceOk(e)
    ensures PlansOnlyExecutable(e) <==> Executable(e.rows) <= PlannedRows(e.operations)
  {
    PlannedRowsSize(e.operations);
    if PlansOnlyExecutable(e) {
      EqualSize(PlannedRows(e.operations), Executable(e.rows));
    } else if Executable(e.rows) <= PlannedRows(e.operations) {
      EqualSize(Executable(e.rows), PlannedRows(e.operations));
      var k :| 0 <= k < |e.operations| && e.operations[k].decisionRowIndex !in Executable(e.rows);
      PlannedIn(e.operations, k);
    }
  }

  lemma PlannedIn(operations: seq<Planned>, k: nat)
    requires k < |operations|
    ensures operations[k].decisionRowIndex in PlannedRows(operations)
  {
  }

  /** What the ledger allows for a row is a well-formed outcome. */
  lemma ExpectedIsOk(e: Evidence, index: nat)
    requires EvidenceOk(e) && index < |e.rows| && ExpectedOutcome(e, index).Some?
    ensures var o := ExpectedOutcome(e, index).value;
            && OutcomeOk(o) && o.plannedBytes == e.rows[index].size && o.sourcePath == e.rows[index].sourcePath
            && (o.state == Failed ==> o.error.Some? && o.error.value != "")
  {
    OperationAtFinds(e.operations, index);
    if e.rows[index].operation != Skip {
      var operation := OperationAt(e.operations, index).value;
      var k :| 0 <= k < |e.operations| && e.operations[k] == operation;
      assert OperationOk(e.rows, Targeted(e.rows), e.operations[k]);
    }
  }

  lemma ExpectedExists(e: Evidence, index: nat)
    requires EvidenceOk(e) && index < |e.rows|
    ensures ExpectedOutcome(e, index).Some? <==> e.rows[index].operation == Skip || index in PlannedRows(e.operations)
  {
    OperationAtFinds(e.operations, index);
    if e.rows[index].operation != Skip && index in PlannedRows(e.operations) {
      var operation := OperationAt(e.operations, index).value;
      var k :| 0 <= k < |e.operations| && e.operations[k] == operation;
    }
  }

  ghost function ExpectedOutcomes(e: Evidence): seq<Outcome>
    requires forall i :: 0 <= i < |e.rows| ==> ExpectedOutcome(e, i).Some?
  {
    seq(|e.rows|, i requires 0 <= i < |e.rows| => ExpectedOutcome(e, i).value)
  }

  /** The payload computed from preview, plan and ledger. */
  ghost function ExpectedPayload(e: Evidence, reason: Option<string>, durationMs: int): Payload
    requires forall i :: 0 <= i < |e.rows| ==> ExpectedOutcome(e, i).Some?
  {
    var os := ExpectedOutcomes(e);
    var failed := FailedOf(os);
    Payload(reason, Count(os, Completed),
            Statistics(|e.rows|, Count(os, Completed), Count(os, Skipped), Count(os, Failed),
                       Count(os, CancelledBeforeCommit) + Count(os, CommittedSourceRetained), Count(os, NotAttempted),
                       PlannedBytes(os), CommittedBytes(os, true), CommittedBytes(os, false), durationMs),
            seq(|failed|, i requires 0 <= i < |failed| => Failure(failed[i].sourcePath, if failed[i].error.Some? then failed[i].error.value else "")),
            os)
  }

  /** The failures listed are those of the failed outcomes. */
  lemma ExpectedFailures(e: Evidence, reason: Option<string>, durationMs: int)
    requires EvidenceOk(e) && forall i :: 0 <= i < |e.rows| ==> ExpectedOutcome(e, i).Some?
    ensures var p := ExpectedPayload(e, reason, durationMs);
            var failed := FailedOf(p.outcomes);
            && |p.failures| == |failed| == Count(p.outcomes, Failed)
            && forall i :: 0 <= i < |failed| ==>
                 && p.failures[i].sourcePath == failed[i].sourcePath != "" && p.failures[i].error != "" && Some(p.failures[i].error) == failed[i].error
  {
    var os := ExpectedOutcomes(e);
    var failed := FailedOf(os);
    FailedCount(os);
    forall i | 0 <= i < |failed| ensures failed[i].sourcePath != "" && failed[i].error.Some? && failed[i].error.value != "" {
      var o := failed[i];
      assert o in os && o.state == Failed;
      var k :| 0 <= k < |os| && os[k] == o;
      ExpectedIsOk(e, k);
    }
  }

  lemma ExpectedOutcomesOk(e: Evidence)
    requires EvidenceOk(e) && forall i :: 0 <= i < |e.rows| ==> ExpectedOutcome(e, i).Some?
    ensures var os := ExpectedOutcomes(e);
            && |os| == |e.rows| && (forall i :: 0 <= i < |os| ==> OutcomeOk(os[i])) && PlannedBytes(os) == SizeOf(e.rows)
            && forall i :: 0 <= i < |os| ==> ExpectedOutcome(e, i) == Some(os[i])
  {
    var os := ExpectedOutcomes(e);
    forall i | 0 <= i < |os| ensures OutcomeOk(os[i]) && os[i].plannedBytes == e.rows[i].size { ExpectedIsOk(e, i); }
    PlannedIsSize(e.rows, os);
  }

  lemma ExpectedAccepted(e: Evidence, reason: Option<string>, durationMs: int)
    requires EvidenceOk(e) && Natural(durationMs) && forall i :: 0 <= i < |e.rows| ==> ExpectedOutcome(e, i).Some?
    ensures Accepted(e, ExpectedPayload(e, reason, durationMs))
  {
    hide ExpectedOutcome, OutcomeOk, ExpectedOutcomes, OperationsOk, LedgerOk, Count, CommittedBytes, PlannedBytes, FailedOf, StatisticsOk;
    ExpectedOutcomesOk(e);
    ExpectedStatistics(e, reason, durationMs);
    ExpectedFailures(e, reason, durationMs);
  }

  /** The statistics conserve files and bytes. */
  lemma ExpectedStatistics(e: Evidence, reason: Option<string>, durationMs: int)
    requires EvidenceOk(e) && Natural(durationMs) && forall i :: 0 <= i < |e.rows| ==> ExpectedOutcome(e, i).Some?
    ensures StatisticsOk(ExpectedPayload(e, reason, durationMs).statistics)
    ensures Natural(ExpectedPayload(e, reason, durationMs).filesProcessed)
  {
    hide ExpectedOutcome, OutcomeOk, ExpectedOutcomes, OperationsOk, LedgerOk, Count, CommittedBytes, PlannedBytes, FailedOf;
    ExpectedOutcomesOk(e);
    CountsAreAll(ExpectedOutcomes(e));
    BytesConserved(ExpectedOutcomes(e));
  }

  /**
   A cancelled terminal can be accepted exactly when only executable rows are planned; it is then the
   payload computed from preview, plan and ledger, with any reason and duration, and no other.
   */
  lemma AcceptedExactly(e: Evidence, p: Payload)
    requires EvidenceOk(e)
    ensures !PlansOnlyExecutable(e) ==> !Accepted(e, p)
    ensures PlansOnlyExecutable(e) ==>
              && (forall i :: 0 <= i < |e.rows| ==> ExpectedOutcome(e, i).Some?)
              && (Accepted(e, p) <==> p == ExpectedPayload(e, p.reason, p.statistics.durationMs) && Natural(p.statistics.durationMs))
  {
    PlansAll(e);
    forall i | 0 <= i < |e.rows|
      ensures ExpectedOutcome(e, i).Some? <==> e.rows[i].operation == Skip || i in PlannedRows(e.operations)
    {
      ExpectedExists(e, i);
    }
    if PlansOnlyExecutable(e) {
      assert forall i :: 0 <= i < |e.rows| ==> e.rows[i].operation == Skip || i in Executable(e.rows);
      if Natural(p.statistics.durationMs) {
        ExpectedAccepted(e, p.reason, p.statistics.durationMs);
        if Accepted(e, p) { TerminalIsDetermined(e, p, ExpectedPayload(e, p.reason, p.statistics.durationMs)); }
      }
    } else if BoundTo(e, p) {
      var i :| i in Executable(e.rows) && i !in PlannedRows(e.operations);
      BoundRow(e, p, i);
    }
  }

  /** Evidence the adapter admits, with a plan for a skipped row instead of the executable one: no terminal is ever accepted. */
  lemma SkippedRowPlanned() returns (e: Evidence, summary: Summary, decisions: seq<Decision>)
    ensures PreviewOk(e.rows, summary) && AuditOk(e.rows, decisions, e.operations) && e.ledger == map[] && EvidenceOk(e)
    ensures !PlansOnlyExecutable(e) && forall p :: !Accepted(e, p)
  {
    var one := [Row("a", Some("A"), Skip, 1)];
    var rows := one + [Row("b", Some("B"), Copy, 1)];
    decisions := [Decision(0, "a"), Decision(1, "b")];
    e := Evidence("preview", rows, [Planned(0, "operation", "a", "A", 1, 0)], map[]);
    summary := Summary(2, 1, 0, 1, 2);
    assert PreviewOk(rows, summary) by {
      assert rows[..1] == one && one[..0] == [];
      assert SizeOf(one) == 1 && CountOf(one, Copy) == 0 && CountOf(one, Move) == 0 && CountOf(one, Skip) == 1;
    }
    hide CountOf, SizeOf, PreviewOk;
    assert decisions[0] in decisions && decisions[1] in decisions;
    assert DecidedRows(decisions) == {0, 1} == Targeted(rows);
    assert Executable(rows) == {1};
    assert e.operations[0].decisionRowIndex !in Executable(rows);
    forall p ensures !Accepted(e, p) {
      hide Accepted;
      AcceptedExactly(e, p);
    }
  }

  lemma BoundRow(e: Evidence, p: Payload, i: nat)
    requires BoundTo(e, p) && i < |e.rows|
    ensures ExpectedOutcome(e, i).Some?
  {
  }

  /** An accepted terminal accounts for every file and byte of the preview. */
  lemma TerminalConserves(e: Evidence, p: Payload, summary: Summary)
    requires EvidenceOk(e) && PreviewOk(e.rows, summary) && Accepted(e, p)
    ensures p.statistics.totalFiles == summary.totalFiles && p.statistics.totalBytes == summary.totalBytes
    ensures p.statistics.skippedFiles >= summary.skippedFiles
    ensures p.statistics.processedBytes + p.statistics.committedResidueBytes <= summary.totalBytes
  {
    forall i | 0 <= i < |e.rows| ensures p.outcomes[i].plannedBytes == e.rows[i].size {
      BoundRow(e, p, i);
      ExpectedIsOk(e, i);
      assert ExpectedOutcome(e, i) == Some(p.outcomes[i]);
    }
    PlannedIsSize(e.rows, p.outcomes);
    forall i | 0 <= i < |e.rows| && e.rows[i].operation == Skip ensures p.outcomes[i].state == Skipped {
      assert ExpectedOutcome(e, i) == Some(p.outcomes[i]);
    }
    SkippedAtLeast(e.rows, p.outcomes);
  }

  lemma {:induction false} SkippedAtLeast(rows: seq<Row>, outcomes: seq<Outcome>)
    requires |rows| == |outcomes| && forall i :: 0 <= i < |rows| && rows[i].operation == Skip ==> outcomes[i].state == Skipped
    ensures Count(outcomes, Skipped) >= CountOf(rows, Skip)
  {
    if rows != [] { SkippedAtLeast(rows[..|rows| - 1], outcomes[..|outcomes| - 1]); }
  }

  // ---- The adapter ----

  /** The entry is the first for an operation of the plan, and fits it. */
  ghost predicate Admits(e: Evidence, previewId: string, entry: Entry) {
    && previewId == e.previewId && entry.operationId !in e.ledger
    && exists k :: 0 <= k < |e.operations| && e.operations[k].operationId == entry.operationId
                   && 0 <= e.operations[k].decisionRowIndex < |e.rows|
                   && EntryFits(entry, e.operations[k], e.rows[e.operations[k].decisionRowIndex])
  }

  lemma AdmitKeeps(e: Evidence, previewId: string, entry: Entry)
    requires EvidenceOk(e) && EntryOk(entry) && Admits(e, previewId, entry)
    ensures EvidenceOk(WithEntry(e, entry))
  {
    hide EntryOk, EntryFits, OperationOk;
  }

  function WithEntry(e: Evidence, entry: Entry): Evidence {
    e.(ledger := e.ledger[entry.operationId := entry])
  }

  datatype Terminal = Terminal(jobId: string, sequence: int, emittedAt: string, payload: Payload)

  class Adapter {
    var jobs: map<string, Evidence>
    var terminals: map<string, Terminal>

    constructor ()
      ensures Valid() && jobs == map[] && terminals == map[]
    {
      jobs, terminals := map[], map[];
    }

    /** Everything admitted fits together, and admitted terminals are still the accepted ones. */
    ghost predicate Valid()
      reads this
    {
      && (forall id :: id in jobs ==> EvidenceOk(jobs[id]))
      && (forall id :: id in terminals ==> id in jobs && Accepted(jobs[id], terminals[id].payload))
    }

    method RecordPreview(jobId: string, previewId: string, rows: seq<Row>, summary: Summary, decisions: seq<Decision>, operations: seq<Planned>)
      returns (ok: bool)
      requires Valid()
      modifies this
      ensures Valid() && terminals == old(terminals)
      ensures ok <==> PreviewOk(rows, summary) && AuditOk(rows, decisions, operations) && jobId !in old(jobs)
      ensures jobs == if ok then old(jobs)[jobId := Evidence(previewId, rows, operations, map[])] else old(jobs)
    {
      ok := ValidatePreview(rows, summary);
      if !ok { return; }
      ok := ValidateAudit(rows, decisions, operations);
      if !ok || jobId in jobs { return false; }
      jobs := jobs[jobId := Evidence(previewId, rows, operations, map[])];
    }

    /** One ledger entry, recorded before the next arrives; a job with a terminal has its manifest closed. */
    method RecordLedgerEntry(jobId: string, previewId: string, entry: Entry) returns (ok: bool)
      requires Valid()
      modifies this
      ensures Valid() && terminals == old(terminals)
      ensures ok <==> EntryOk(entry) && jobId in old(jobs) && Admits(old(jobs)[jobId], previewId, entry) && jobId !in terminals
      ensures jobs == if ok then old(jobs)[jobId := WithEntry(old(jobs)[jobId], entry)] else old(jobs)
    {
      if !EntryOk(entry) || jobId !in jobs || previewId != jobs[jobId].previewId { return false; }
      hide Accepted, EvidenceOk, EntryFits, EntryOk, OperationById;
      var e := jobs[jobId];
      var operation := OperationById(e.operations, entry.operationId);
      OperationByIdFinds(e, entry.operationId);
      if operation.None? { return false; }
      if !EntryFits(entry, operation.value, e.rows[operation.value.decisionRowIndex]) { return false; }
      if entry.operationId in e.ledger || jobId in terminals { return false; }
      AdmitKeeps(e, previewId, entry);
      jobs := jobs[jobId := WithEntry(e, entry)];
      ok := true;
    }

    /** Admits a cancelled terminal once; a different one later is refused. */
    method RecordTerminal(terminal: Terminal) returns (ok: bool)
      requires Valid()
      modifies this
      ensures Valid() && jobs == old(jobs)
      ensures ok <==> && 0 < terminal.sequence <= MAX_SAFE_INTEGER && terminal.jobId in jobs && Accepted(jobs[terminal.jobId], terminal.payload)
                      && (terminal.jobId in old(terminals) ==> old(terminals)[terminal.jobId] == terminal)
      ensures terminals == if ok then old(terminals)[terminal.jobId := terminal] else old(terminals)
    {
      hide CancelledOk, BoundTo, EvidenceOk;
      if !CancelledOk(terminal.payload) || terminal.sequence <= 0 || terminal.sequence > MAX_SAFE_INTEGER || terminal.jobId !in jobs { return false; }
      ok := CheckBinding(jobs[terminal.jobId], terminal.payload);
      if !ok { return; }
      if terminal.jobId in terminals {
        ok := terminals[terminal.jobId] == terminal;
        assert ok ==> terminals == terminals[terminal.jobId := terminal];
      } else {
        terminals := terminals[terminal.jobId := terminal];
      }
    }
  }

  lemma {:induction false} OperationByIdIn(operations: seq<Planned>, id: string)
    ensures OperationById(operations, id).Some? <==> exists k :: 0 <= k < |operations| && operations[k].operationId == id
    ensures OperationById(operations, id).Some? ==>
              exists k :: 0 <= k < |operations| && operations[k] == OperationById(operations, id).value && operations[k].operationId == id
  {
    if operations != [] {
      var n := |operations| - 1;
      OperationByIdIn(operations[..n], id);
      assert forall k :: 0 <= k < n ==> operations[..n][k] == operations[k];
    }
  }

  lemma OperationByIdFinds(e: Evidence, id: string)
    requires EvidenceOk(e)
    ensures forall k :: 0 <= k < |e.operations| && e.operations[k].operationId == id ==> OperationById(e.operations, id) == Some(e.operations[k])
    ensures OperationById(e.operations, id).Some? ==>
              && 0 <= OperationById(e.operations, id).value.decisionRowIndex < |e.rows|
              && exists k :: 0 <= k < |e.operations| && e.operations[k] == OperationById(e.operations, id).value && e.operations[k].operationId == id
  {
    OperationByIdIn(e.operations, id);
    if OperationById(e.operations, id).Some? {
      var k :| 0 <= k < |e.operations| && e.operations[k] == OperationById(e.operations, id).value && e.operations[k].operationId == id;
      assert OperationOk(e.rows, Targeted(e.rows), e.operations[k]);
    }
  }
}
