/**
 The reducer of processing events: one state machine decides acceptance for live events, for
 persistence and for replay.
 */
module JobStateMachine {
  import opened JavaScript
  import opened LineLog

  datatype Status =
    | Draft | Previewing | PreviewReady | Queued | Processing | Cancelling
    | Completed | Partial | Failed | Cancelled

  datatype Kind =
    | PreviewStarted | PreviewProgress | PreviewReadyEvent | JobQueued | JobStarted | JobProgress
    | JobCancelling | JobCompleted | JobPartiallyCompleted | JobFailed | JobCancelled

  datatype FileState =
    | FileCompleted | FileSkipped | FileFailed | CancelledBeforeCommit | CommittedSourceRetained | NotAttempted

  datatype FileOutcome = FileOutcome(sourcePath: string, destinationPath: string, plannedBytes: nat,
                                     committedBytes: nat, sourceRetained: bool, state: FileState)

  /** The part of a payload that later checks look at. */
  datatype Body = QueuedBody(previewId: string, options: string) | OutcomesBody(outcomes: seq<FileOutcome>) | OtherBody

  datatype Event = Event(kind: Kind, jobId: string, sequence: int, emittedAt: string, body: Body)

  predicate SafeInteger(n: int) {
    -MAX_SAFE_INTEGER <= n <= MAX_SAFE_INTEGER
  }

  predicate Terminal(s: Status) {
    s in {Completed, Partial, Failed, Cancelled}
  }

  predicate TerminalKind(k: Kind) {
    k in {JobCompleted, JobPartiallyCompleted, JobFailed, JobCancelled}
  }

  predicate Progress(k: Kind) {
    k == PreviewProgress || k == JobProgress
  }

  function Transitions(s: Status): set<Status> {
    match s
    case Draft => {Previewing}
    case Previewing => {PreviewReady, Failed, Cancelled}
    case PreviewReady => {Queued, Cancelling, Cancelled}
    case Queued => {Processing, Cancelling, Failed, Cancelled}
    case Processing => {Cancelling, Completed, Partial, Failed, Cancelled}
    case Cancelling => {Failed, Cancelled}
    case _ => {}
  }

  function StatusForEvent(k: Kind): Option<Status> {
    match k
    case PreviewStarted => Some(Previewing)
    case PreviewProgress => None
    case PreviewReadyEvent => Some(PreviewReady)
    case JobQueued => Some(Queued)
    case JobStarted => Some(Processing)
    case JobProgress => None
    case JobCancelling => Some(Cancelling)
    case JobCompleted => Some(Completed)
    case JobPartiallyCompleted => Some(Partial)
    case JobFailed => Some(Failed)
    case JobCancelled => Some(Cancelled)
  }

  datatype Reason = JobIdMismatch | InvalidSequence | StaleSequence | AlreadyTerminal | InvalidTransition

  datatype Snapshot = Snapshot(jobId: string, status: Status, lastSequence: int, lastKind: Option<Kind>, terminalKind: Option<Kind>)

  datatype Acceptance = Accepted(snapshot: Snapshot) | Rejected(reason: Reason, snapshot: Snapshot)

  function Fresh(jobId: string): Snapshot {
    Snapshot(jobId, Draft, 0, None, None)
  }

  /** What one event does to a snapshot. */
  function Judge(m: Snapshot, e: Event): Acceptance {
    if e.jobId != m.jobId then Rejected(JobIdMismatch, m)
    else if !SafeInteger(e.sequence) || e.sequence <= 0 then Rejected(InvalidSequence, m)
    else if Terminal(m.status) then Rejected(AlreadyTerminal, m)
    else if e.sequence <= m.lastSequence then Rejected(StaleSequence, m)
    else
      var next := StatusForEvent(e.kind);
      var allowed :=
        if next.None? then m.status == (if e.kind == PreviewProgress then Previewing else Processing)
        else next.value in Transitions(m.status);
      if !allowed then Rejected(InvalidTransition, m)
      else Accepted(Snapshot(m.jobId, if next.Some? then next.value else m.status, e.sequence, Some(e.kind),
                             if TerminalKind(e.kind) then Some(e.kind) else m.terminalKind))
  }

  class Machine {
    const jobId: string
    var status: Status
    var lastSequence: int
    var lastKind: Option<Kind>
    var terminalKind: Option<Kind>

    constructor (jobId: string)
      ensures this.jobId == jobId && State() == Fresh(jobId)
    {
      this.jobId := jobId;
      status, lastSequence, lastKind, terminalKind := Draft, 0, None, None;
    }

    function State(): Snapshot
      reads this
    {
      Snapshot(jobId, status, lastSequence, lastKind, terminalKind)
    }

    /** Decides an event and, with `commit`, takes it; a rejected event never changes anything. */
    method Evaluate(e: Event, commit: bool) returns (a: Acceptance)
      modifies this
      ensures a == Judge(old(State()), e)
      ensures State() == if commit then a.snapshot else old(State())
    {
      if e.jobId != jobId { return Rejected(JobIdMismatch, State()); }
      if !SafeInteger(e.sequence) || e.sequence <= 0 { return Rejected(InvalidSequence, State()); }
      if Terminal(status) { return Rejected(AlreadyTerminal, State()); }
      if e.sequence <= lastSequence { return Rejected(StaleSequence, State()); }
      var next := StatusForEvent(e.kind);
      if next.None? {
        var progressStatus := if e.kind == PreviewProgress then Previewing else Processing;
        if status != progressStatus { return Rejected(InvalidTransition, State()); }
      } else if next.value !in Transitions(status) {
        return Rejected(InvalidTransition, State());
      }
      var candidateStatus := if next.Some? then next.value else status;
      var candidateTerminal := if TerminalKind(e.kind) then Some(e.kind) else terminalKind;
      a := Accepted(Snapshot(jobId, candidateStatus, e.sequence, Some(e.kind), candidateTerminal));
      if commit {
        status := candidateStatus;
        lastSequence := e.sequence;
        lastKind := Some(e.kind);
        terminalKind := candidateTerminal;
      }
    }
  }

  // ---- Whole runs ----

  /** The machine after a run in which every event was accepted; None otherwise. */
  function Run(m: Snapshot, events: seq<Event>): Option<Snapshot> {
    if events == [] then Some(m)
    else
      var before := Run(m, events[..|events| - 1]);
      if before.None? then None
      else
        var a := Judge(before.value, events[|events| - 1]);
        if a.Accepted? then Some(a.snapshot) else None
  }

  lemma RunAppend(m: Snapshot, events: seq<Event>, e: Event)
    ensures Run(m, events + [e]) ==
              var before := Run(m, events);
              if before.Some? && Judge(before.value, e).Accepted? then Some(Judge(before.value, e).snapshot) else None
  {
    assert (events + [e])[..|events|] == events;
  }

  lemma {:induction false} RunPrefix(m: Snapshot, events: seq<Event>, k: nat)
    requires k <= |events| && Run(m, events).Some?
    ensures Run(m, events[..k]).Some?
  {
    if k < |events| {
      var n := |events| - 1;
      RunPrefix(m, events[..n], k);
      assert events[..n][..k] == events[..k];
    } else {
      assert events[..k] == events;
    }
  }

  lemma RunPrefixFails(m: Snapshot, events: seq<Event>, k: nat)
    requires k <= |events| && Run(m, events[..k]).None?
    ensures Run(m, events).None?
  {
    if Run(m, events).Some? { RunPrefix(m, events, k); }
  }

  /** How far a status is from the draft; every change of status goes further. */
  function Rank(s: Status): nat {
    match s
    case Draft => 0
    case Previewing => 1
    case PreviewReady => 2
    case Queued => 3
    case Processing => 4
    case Cancelling => 5
    case _ => 6
  }

  function StatusChanges(events: seq<Event>): nat {
    if events == [] then 0
    else StatusChanges(events[..|events| - 1]) + (if Progress(events[|events| - 1].kind) then 0 else 1)
  }

  /** Every event but progress changes the status, and a run has room for at most six such changes. */
  lemma {:induction false} FewStatusChanges(m: Snapshot, events: seq<Event>)
    requires Run(m, events).Some?
    ensures StatusChanges(events) + Rank(m.status) <= Rank(Run(m, events).value.status) <= 6
  {
    if events != [] {
      FewStatusChanges(m, events[..|events| - 1]);
    }
  }

  /** Accepted sequence numbers increase strictly. */
  lemma {:induction false} SequencesIncrease(m: Snapshot, events: seq<Event>)
    requires Run(m, events).Some?
    ensures forall i :: 0 <= i < |events| ==> m.lastSequence < events[i].sequence <= Run(m, events).value.lastSequence
    ensures forall i, j :: 0 <= i < j < |events| ==> events[i].sequence < events[j].sequence
    ensures events != [] ==> events[|events| - 1].sequence == Run(m, events).value.lastSequence <= MAX_SAFE_INTEGER
    ensures events == [] ==> Run(m, events).value == m
  {
    if events != [] {
      var n := |events| - 1;
      SequencesIncrease(m, events[..n]);
      assert forall i :: 0 <= i < n ==> events[..n][i] == events[i];
    }
  }

  /** A run that starts unfinished has at most one terminal event, its last, and is finished exactly when it has one. */
  lemma {:induction false} TerminalIsLast(m: Snapshot, events: seq<Event>)
    requires Run(m, events).Some? && !Terminal(m.status) && m.terminalKind == None
    ensures forall i :: 0 <= i < |events| && TerminalKind(events[i].kind) ==> i == |events| - 1
    ensures Terminal(Run(m, events).value.status) <==> events != [] && TerminalKind(events[|events| - 1].kind)
    ensures Run(m, events).value.terminalKind ==
              if events != [] && TerminalKind(events[|events| - 1].kind) then Some(events[|events| - 1].kind) else None
  {
    if events != [] {
      var n := |events| - 1;
      TerminalIsLast(m, events[..n]);
      forall i | 0 <= i < n ensures !TerminalKind(events[i].kind) {
        assert events[..n][i] == events[i];
      }
    }
  }
}
