/**
 Deleting one verified source file, and reconciling a deletion that was interrupted.

 The protocol moves the file into a private quarantine directory, writes an immutable receipt,
 and only then unlinks it. Three names are involved: the source, the quarantine and the
 receipt. `chaos` lets any system call fail, any read disagree, and the process be killed
 between any two calls or in the middle of writing the receipt; `busy` lets other programs
 put other files at the source name, or take their own files away, between any two calls.
 */
module SourceDelete {
  import opened LineLog

  datatype NativeIdentity = NativeIdentity(device: string, inode: string, links: string, size: string, mtimeNs: string)

  datatype Object = Regular(identity: NativeIdentity, digest: string) | Special

  datatype Quarantine = NoQuarantine | Directory(entries: map<string, Object>) | NotDirectory

  datatype Receipt = NoReceipt | Written(bytes: Bytes) | ReceiptSpecial

  datatype State = State(source: Option<Object>, quarantine: Quarantine, receipt: Receipt)

  // ---- Observations and results ----

  datatype SourceObservation = SourceExpected | SourceAbsent | SourceOther | SourceSpecial | SourceUnreadable

  datatype ReceiptObservation = ReceiptAbsent | ReceiptExact | ReceiptOther | ReceiptOdd | ReceiptUnreadable

  datatype QuarantineObservation =
    | QAbsent | QEmpty | QExpected | QOther | QEntrySpecial | QUnexpected | QSpecial | QUnreadable

  datatype SourceNote = Retained | Gone | Replaced

  datatype QuarantineNote = WasAbsent | EmptyRemoved | EntryDeleted

  /** The receipt as it was seen, or as just created. */
  datatype ReceiptNote = Seen(o: ReceiptObservation) | Created

  datatype Report = Report(source: SourceNote, quarantine: QuarantineNote, receipt: ReceiptNote, fileSynced: bool, parents: nat)

  datatype Details = Details(source: SourceObservation, quarantine: QuarantineObservation, receipt: ReceiptNote)

  datatype Failure = Failure(code: string, phase: string, outcome: string, details: Option<Details>)

  datatype Reply = Ok(report: Report) | Err(failure: Failure) | Killed

  function Precondition(code: string): Reply {
    Err(Failure(code, "precondition", "not-applied", None))
  }

  function Unknown(code: string): Reply {
    Err(Failure(code, "mutation", "unknown", None))
  }

  const NEEDS_RECONCILIATION := Err(Failure("reconciliation-required", "precondition", "unknown", None))

  function Ambiguous(source: SourceObservation, quarantine: QuarantineObservation, receipt: ReceiptNote): Reply {
    Err(Failure("reconciliation-required", "precondition", "unknown", Some(Details(source, quarantine, receipt))))
  }

  // ---- What crosses the wire, and the client's checks ----

  datatype WireReport = WireReport(outcome: string, state: string, sourceState: string, quarantineState: string,
                                   receiptState: string, deleteId: string, file: string, parents: nat)

  datatype WireDetails = WireDetails(deleteId: string, sourceState: string, quarantineState: string, receiptState: string)

  datatype WireError = WireError(code: string, phase: string, outcome: string, details: Option<WireDetails>)

  /** The two requests about deletions. */
  datatype Call = CallDelete | CallReconcile

  function SourceLabel(o: SourceObservation): string {
    match o
    case SourceExpected => "expected"
    case SourceAbsent => "absent"
    case SourceOther => "other"
    case SourceSpecial => "special"
    case SourceUnreadable => "unreadable"
  }

  function ReceiptLabel(note: ReceiptNote): string {
    match note
    case Created => "created"
    case Seen(ReceiptAbsent) => "absent"
    case Seen(ReceiptExact) => "exact"
    case Seen(ReceiptOther) => "other"
    case Seen(ReceiptOdd) => "special"
    case Seen(ReceiptUnreadable) => "unreadable"
  }

  function QuarantineLabel(o: QuarantineObservation): string {
    match o
    case QAbsent => "absent"
    case QEmpty => "empty"
    case QExpected => "entry-expected"
    case QOther => "entry-other"
    case QEntrySpecial => "entry-special"
    case QUnexpected => "unexpected-entries"
    case QSpecial => "special"
    case QUnreadable => "unreadable"
  }

  function SerializeReport(r: Report, deleteId: string): WireReport {
    WireReport(if r.source.Retained? then "not-applied" else "applied",
               if r.source.Retained? then "source-retained" else "deleted",
               match r.source case Retained => "expected" case Gone => "absent" case Replaced => "replacement-preserved",
               match r.quarantine case WasAbsent => "absent" case EmptyRemoved => "empty-removed" case EntryDeleted => "entry-deleted",
               ReceiptLabel(r.receipt), deleteId, if r.fileSynced then "synced" else "not-applicable", r.parents)
  }

  function SerializeDetails(d: Details, deleteId: string): WireDetails {
    WireDetails(deleteId, SourceLabel(d.source), QuarantineLabel(d.quarantine), ReceiptLabel(d.receipt))
  }

  function SerializeError(f: Failure, deleteId: string): WireError {
    WireError(f.code, f.phase, f.outcome,
              if f.details.Some? then Some(SerializeDetails(f.details.value, deleteId)) else None)
  }

  /** The client's check of a reconciliation result. */
  predicate AcceptsReconcile(r: WireReport, deleteId: string) {
    && r.deleteId == deleteId
    && (r.file == "synced" || r.file == "not-applicable")
    && ((&& r.outcome == "not-applied" && r.state == "source-retained" && r.sourceState == "expected"
         && r.receiptState == "absent" && (r.quarantineState == "absent" || r.quarantineState == "empty-removed")
         && r.file == "not-applicable" && r.parents == (if r.quarantineState == "absent" then 0 else 1))
        || (&& r.outcome == "applied" && r.state == "deleted"
            && (r.sourceState == "absent" || r.sourceState == "replacement-preserved")
            && (r.quarantineState == "entry-deleted" || r.quarantineState == "empty-removed" || r.quarantineState == "absent")
            && (r.receiptState == "created" || r.receiptState == "exact")
            && ((r.receiptState == "created" && r.quarantineState == "entry-deleted" && r.file == "synced" && r.parents == 3)
                || (r.receiptState == "exact" && r.file == "not-applicable"
                    && r.parents == (if r.quarantineState == "absent" then 1 else 2)))))
  }

  /** The client's check of a deletion result. */
  predicate AcceptsDelete(r: WireReport, deleteId: string) {
    r == WireReport("applied", "deleted", "absent", "entry-deleted", "created", deleteId, "synced", 3)
  }

  /** The client's check of the details of a reconciliation error. */
  predicate AcceptsDetails(d: WireDetails, deleteId: string) {
    && d.deleteId == deleteId
    && (d.sourceState == "expected" || d.sourceState == "absent" || d.sourceState == "other"
        || d.sourceState == "special" || d.sourceState == "unreadable")
    && (d.quarantineState == "absent" || d.quarantineState == "empty" || d.quarantineState == "entry-expected"
        || d.quarantineState == "entry-other" || d.quarantineState == "entry-special"
        || d.quarantineState == "unexpected-entries" || d.quarantineState == "special" || d.quarantineState == "unreadable")
    && (d.receiptState == "absent" || d.receiptState == "exact" || d.receiptState == "other"
        || d.receiptState == "special" || d.receiptState == "unreadable")
  }

  /** The client's check of an error, for the request it answers. */
  predicate AcceptsError(call: Call, e: WireError, deleteId: string) {
    && e.phase in ["validation", "precondition", "mutation", "durability", "protocol"]
    && e.outcome in ["not-applied", "unknown"]
    && if e.code != "reconciliation-required" then e.details.None?
       else
         && e.phase == "precondition" && e.outcome == "unknown"
         && if call == CallReconcile && e.details.Some? then AcceptsDetails(e.details.value, deleteId)
            else call == CallDelete && e.details.None?
  }

  /** Why a file cannot be hashed: it cannot be read, or changes meanwhile. */
  const HASH_ERRORS := {"stat-failed", "source-open-failed", "source-read-failed", "source-drift"}

  /** Why a deletion is refused before anything has changed. */
  const REFUSALS := HASH_ERRORS + {"unsafe-file", "not-regular-file", "identity-mismatch", "hash-mismatch", "cross-device", "target-exists"}

  /** Errors after the quarantine directory was made, while the source is still at its name. */
  const LEFTOVERS := {"quarantine-open-failed", "source-reconciliation-required", "quarantine-cleanup-failed"}

  /** Errors of a system call that changed nothing. */
  const UNAPPLIED := {"quarantine-create-failed", "rename-failed"}

  /** The errors a reconciliation can answer with: an ambiguity with its details, or an entry that cannot be hashed. */
  predicate ReconcileFailure(f: Failure) {
    if f.details.Some? then f.code == "reconciliation-required" && f.phase == "precondition" && f.outcome == "unknown"
    else f.code in HASH_ERRORS && f.phase == "precondition" && f.outcome == "not-applied"
  }

  /** The errors a deletion can answer with; an ambiguity comes with or without details. */
  predicate DeleteFailure(f: Failure) {
    match f.phase
    case "precondition" =>
      if f.code == "reconciliation-required" then f.outcome == "unknown"
      else f.code in REFUSALS && f.outcome == "not-applied" && f.details.None?
    case "mutation" =>
      f.details.None? && if f.outcome == "unknown" then f.code in LEFTOVERS else f.outcome == "not-applied" && f.code in UNAPPLIED
    case _ => f == Failure("durability-failed", "durability", "unknown", None)
  }

  predicate CallFailure(call: Call, f: Failure) {
    if call == CallDelete then DeleteFailure(f) else ReconcileFailure(f)
  }

  lemma DetailsAccepted(d: Details, deleteId: string)
    ensures AcceptsDetails(SerializeDetails(d, deleteId), deleteId) <==> d.receipt != Created
  {
    match d.receipt
    case Created => assert |"created"| == 7;
    case Seen(o) =>
  }

  /**
   The client accepts an error of the helper exactly when it has no details, or answers a
   reconciliation that had not just created the receipt. It refuses the details of every
   deletion error, and does not know the label "created" in those of a reconciliation error.
   */
  lemma ErrorAccepted(call: Call, f: Failure, deleteId: string)
    ensures CallFailure(call, f) ==>
              (AcceptsError(call, SerializeError(f, deleteId), deleteId) <==>
                 f.details.None? || (call == CallReconcile && f.details.value.receipt != Created))
  {
    if f.details.Some? { DetailsAccepted(f.details.value, deleteId); }
  }

  // ---- The reconciliation table ----

  function SeeSource(source: Option<Object>, target: Object): SourceObservation {
    match source
    case None => SourceAbsent
    case Some(Special) => SourceSpecial
    case Some(o) => if o == target then SourceExpected else SourceOther
  }

  function SeeReceipt(receipt: Receipt, marker: Bytes): ReceiptObservation {
    match receipt
    case NoReceipt => ReceiptAbsent
    case ReceiptSpecial => ReceiptOdd
    case Written(bytes) => if bytes == marker then ReceiptExact else ReceiptOther
  }

  function SeeQuarantine(quarantine: Quarantine, target: Object): QuarantineObservation {
    match quarantine
    case NoQuarantine => QAbsent
    case NotDirectory => QSpecial
    case Directory(entries) =>
      if entries == map[] then QEmpty
      else if entries.Keys != {"entry"} then QUnexpected
      else if entries["entry"].Special? then QEntrySpecial
      else if entries["entry"] == target then QExpected
      else QOther
  }

  /** Something else than the target: gone or replaced, but readable. */
  predicate SourceMovedOn(o: SourceObservation) {
    o in {SourceAbsent, SourceOther, SourceSpecial}
  }

  function DeletedNote(s: SourceObservation): SourceNote {
    if s.SourceAbsent? then Gone else Replaced
  }

  /** The reconciliation table: the result for what was observed, None where the code reports ambiguity. */
  function Verdict(s: SourceObservation, q: QuarantineObservation, r: ReceiptObservation): Option<Report> {
    match (q, r)
    case (QAbsent, ReceiptAbsent) =>
      if s == SourceExpected then Some(Report(Retained, WasAbsent, Seen(ReceiptAbsent), false, 0)) else None
    case (QEmpty, ReceiptAbsent) =>
      if s == SourceExpected then Some(Report(Retained, EmptyRemoved, Seen(ReceiptAbsent), false, 1)) else None
    case (QAbsent, ReceiptExact) =>
      if SourceMovedOn(s) then Some(Report(DeletedNote(s), WasAbsent, Seen(ReceiptExact), false, 1)) else None
    case (QEmpty, ReceiptExact) =>
      if SourceMovedOn(s) then Some(Report(DeletedNote(s), EmptyRemoved, Seen(ReceiptExact), false, 2)) else None
    case (QExpected, ReceiptExact) =>
      if SourceMovedOn(s) then Some(Report(DeletedNote(s), EntryDeleted, Seen(ReceiptExact), false, 2)) else None
    case (QExpected, ReceiptAbsent) =>
      if SourceMovedOn(s) then Some(Report(DeletedNote(s), EntryDeleted, Created, true, 3)) else None
    case _ => None
  }

  /** Every report of the table passes the client's check. */
  lemma VerdictAccepted(s: SourceObservation, q: QuarantineObservation, r: ReceiptObservation, deleteId: string)
    requires Verdict(s, q, r).Some?
    ensures AcceptsReconcile(SerializeReport(Verdict(s, q, r).value, deleteId), deleteId)
  {
  }

  /** Helper and client agree on the protocol: the client accepts exactly the results the table can produce. */
  lemma AcceptedIsProducible(w: WireReport, deleteId: string)
    ensures AcceptsReconcile(w, deleteId) <==>
              exists s, q, r :: Verdict(s, q, r).Some? && SerializeReport(Verdict(s, q, r).value, deleteId) == w
  {
    if AcceptsReconcile(w, deleteId) {
      var s := if w.state == "source-retained" then SourceExpected
               else if w.sourceState == "absent" then SourceAbsent else SourceOther;
      var q := if w.quarantineState == "absent" then QAbsent
               else if w.quarantineState == "empty-removed" then QEmpty else QExpected;
      var r := if w.receiptState == "exact" then ReceiptExact else ReceiptAbsent;
      assert Verdict(s, q, r).Some? && SerializeReport(Verdict(s, q, r).value, deleteId) == w;
    }
  }

  datatype Trouble = Fine | Fails | Dies

  /** The reply of a deletion that ended before the file was moved: killed, or an error without details. */
  predicate PlainError(r: Reply) {
    r.Killed? || (r.Err? && DeleteFailure(r.failure) && r.failure.details.None?)
  }

  /** Hashing a file failed. */
  method HashFailure() returns (r: Reply)
    ensures r.Err? && r.failure.details.None? && ReconcileFailure(r.failure)
  {
    var code :| code in HASH_ERRORS;
    r := Precondition(code);
  }

  /** A no-replace rename failed and changed nothing. */
  method RenameFailure() returns (r: Reply)
    ensures r.Err? && r.failure.details.None? && DeleteFailure(r.failure)
  {
    var code :| code in {"cross-device", "target-exists", "rename-failed"};
    r := if code == "rename-failed" then Err(Failure(code, "mutation", "not-applied", None)) else Precondition(code);
  }

  datatype Check = Match | Mismatch | CheckFailed

  class Volume {
    var source: Option<Object>
    var quarantine: Quarantine
    var receipt: Receipt
    var syncs: nat      // directory syncs done
    var fileSyncs: nat  // receipt syncs done
    const target: Object
    const marker: Bytes
    const deleteId: string
    const reopens: bool // the Unix helper reopens the quarantined entry, the Windows helper keeps its handle

    constructor (identity: NativeIdentity, digest: string, marker: Bytes, deleteId: string, reopens: bool)
      ensures target == Regular(identity, digest) && this.marker == marker && this.deleteId == deleteId
      ensures Intact()
    {
      target, this.marker, this.deleteId := Regular(identity, digest), marker, deleteId;
      this.reopens := reopens;
      source, quarantine, receipt := Some(Regular(identity, digest)), NoQuarantine, NoReceipt;
      syncs, fileSyncs := 0, 0;
    }

    /** What the three names hold. */
    function Now(): State
      reads this
    {
      State(source, quarantine, receipt)
    }

    /** Nothing has happened yet, apart from an empty quarantine directory. */
    predicate Intact()
      reads this
    {
      target.Regular? && source == Some(target) && quarantine in {NoQuarantine, Directory(map[])} && receipt == NoReceipt
    }

    /** The file is in quarantine; its receipt is missing, or written up to some byte. */
    predicate Quarantined()
      reads this
    {
      && target.Regular? && source != Some(target) && quarantine == Directory(map["entry" := target])
      && (receipt == NoReceipt || (receipt.Written? && receipt.bytes <= marker))
    }

    /** The file is gone and its receipt proves the deletion. */
    predicate Deleted()
      reads this
    {
      target.Regular? && source != Some(target) && quarantine in {NoQuarantine, Directory(map[])} && receipt == Written(marker)
    }

    /** The states that runs of the two operations can be in. */
    predicate Reachable()
      reads this
    {
      Intact() || Quarantined() || Deleted()
    }

    /** The target is at its name, or held in quarantine, or an exact receipt exists. */
    predicate NoLoss()
      reads this
    {
      || source == Some(target)
      || (quarantine.Directory? && "entry" in quarantine.entries && quarantine.entries["entry"] == target)
      || receipt == Written(marker)
    }

    /** A terminal state: retained or deleted, with no quarantine left. */
    predicate Settled()
      reads this
    {
      (Intact() || Deleted()) && quarantine == NoQuarantine
    }

    /** What other programs may do to the source name between two calls. */
    twostate predicate OthersMayMeddle(busy: bool)
      reads this`source
    {
      && (source == Some(target) <==> old(source) == Some(target))
      && (!busy ==> source == old(source))
    }

    /** What no call ever does, whatever state it starts in. */
    twostate predicate FailsClosed()
      reads this
    {
      && (old(NoLoss()) ==> NoLoss())
      && (source == Some(target) ==> old(source) == Some(target))
      // an existing receipt is never changed
      && (old(receipt) != NoReceipt ==> receipt == old(receipt))
      && (receipt == NoReceipt || receipt == old(receipt) || (receipt.Written? && receipt.bytes <= marker))
      && (old(quarantine) == NotDirectory ==> quarantine == NotDirectory)
      // only the target itself is ever unlinked, and only once its receipt is exact
      && (old(quarantine) != quarantine && old(quarantine.Directory?) && old(quarantine.entries) != map[] ==>
            receipt == Written(marker) && old(quarantine) == Directory(map["entry" := target])
            && quarantine in {NoQuarantine, Directory(map[])})
    }

    /** The gap before a system call: the others act, and the call may fail or never happen. */
    method Gap(chaos: bool, busy: bool) returns (t: Trouble)
      modifies this`source
      ensures OthersMayMeddle(busy)
      ensures !chaos ==> t.Fine?
    {
      if busy && source != Some(target) {
        var other: Option<Object> := *;
        if other != Some(target) { source := other; }
      }
      t := Fine;
      if chaos {
        var dies, fails: bool := *, *;
        if dies { t := Dies; } else if fails { t := Fails; }
      }
    }

    /** Reopening and rehashing the quarantined entry. */
    method Verify(chaos: bool) returns (c: Check)
      ensures c.Match? ==> quarantine.Directory? && "entry" in quarantine.entries && quarantine.entries["entry"] == target
      ensures !chaos && quarantine.Directory? && "entry" in quarantine.entries && quarantine.entries["entry"] == target ==> c.Match?
    {
      c := if quarantine.Directory? && "entry" in quarantine.entries && quarantine.entries["entry"] == target then Match else Mismatch;
      if chaos {
        var changed, unreadable: bool := *, *;
        if changed { c := Mismatch; }
        if unreadable { c := CheckFailed; }
      }
    }

    /** Writes the first bytes of the marker into the new receipt. */
    method WriteReceipt(written: nat)
      requires receipt == Written([]) && written <= |marker|
      modifies this`receipt
      ensures receipt == Written(marker[..written])
      ensures written == |marker| ==> receipt == Written(marker)
    {
      assert marker[..|marker|] == marker;
      receipt := Written(marker[..written]);
    }

    /** Creates the receipt exclusively: create, write, sync, sync its directory. */
    method CreateReceipt(chaos: bool, busy: bool) returns (t: Trouble)
      modifies this`source, this`receipt, this`syncs, this`fileSyncs
      ensures OthersMayMeddle(busy)
      ensures t.Fine? ==> old(receipt) == NoReceipt && receipt == Written(marker)
                          && syncs == old(syncs) + 1 && fileSyncs == old(fileSyncs) + 1
      ensures !t.Fine? ==> receipt == old(receipt) || (old(receipt) == NoReceipt && receipt.Written? && receipt.bytes <= marker)
      ensures !chaos && old(receipt) == NoReceipt ==> t.Fine?
      ensures !chaos ==> !t.Dies?
    {
      t := Gap(chaos, busy);
      if !t.Fine? { return; }
      if receipt != NoReceipt { return Fails; }
      receipt := Written([]);
      t := Gap(chaos, busy);
      if !t.Fine? {
        var written :| 0 <= written <= |marker|;
        WriteReceipt(written);
        return;
      }
      WriteReceipt(|marker|);
      t := Gap(chaos, busy);
      if !t.Fine? { return; }
      fileSyncs := fileSyncs + 1;
      t := Gap(chaos, busy);
      if !t.Fine? { return; }
      syncs := syncs + 1;
    }

    method SyncDirectory(chaos: bool, busy: bool) returns (t: Trouble)
      modifies this`source, this`syncs
      ensures OthersMayMeddle(busy)
      ensures syncs == old(syncs) + (if t.Fine? then 1 else 0)
      ensures !chaos ==> t.Fine?
    {
      t := Gap(chaos, busy);
      if t.Fine? { syncs := syncs + 1; }
    }

    /** Removes the quarantine directory; fails unless it is empty. */
    method RemoveQuarantine(chaos: bool, busy: bool) returns (t: Trouble)
      modifies this`source, this`quarantine
      ensures OthersMayMeddle(busy)
      ensures t.Fine? ==> old(quarantine) == Directory(map[]) && quarantine == NoQuarantine
      ensures !t.Fine? ==> quarantine == old(quarantine)
      ensures !chaos && old(quarantine) == Directory(map[]) ==> t.Fine?
      ensures !chaos ==> !t.Dies?
    {
      t := Gap(chaos, busy);
      if !t.Fine? { return; }
      if quarantine != Directory(map[]) { return Fails; }
      quarantine := NoQuarantine;
    }

    /**
     Unlinks the verified entry, syncs and removes the quarantine, syncs the source directory.
     None when all of it succeeded, otherwise the reply that ends the call.
     */
    method Finish(chaos: bool, busy: bool, s: SourceObservation, c: ReceiptNote) returns (stopped: Option<Reply>)
      requires receipt == Written(marker) && quarantine == Directory(map["entry" := target])
      modifies this`source, this`quarantine, this`syncs
      ensures OthersMayMeddle(busy)
      ensures quarantine in {old(quarantine), Directory(map[]), NoQuarantine}
      ensures stopped.None? ==> quarantine == NoQuarantine && syncs == old(syncs) + 2
      ensures stopped.Some? && stopped.value != Killed ==>
                && stopped.value.Err? && ReconcileFailure(stopped.value.failure)
                && stopped.value.failure.details.Some? && stopped.value.failure.details.value.receipt == c
      ensures !chaos ==> stopped.None?
    {
      var t := Gap(chaos, busy);
      if t.Dies? { return Some(Killed); }
      if t.Fails? { return Some(Ambiguous(s, QExpected, c)); }
      quarantine := Directory(map[]);
      t := SyncDirectory(chaos, busy);
      if t.Dies? { return Some(Killed); }
      if t.Fails? { return Some(Ambiguous(s, QEmpty, c)); }
      t := RemoveQuarantine(chaos, busy);
      if t.Dies? { return Some(Killed); }
      if t.Fails? { return Some(Ambiguous(s, QEmpty, c)); }
      t := SyncDirectory(chaos, busy);
      if t.Dies? { return Some(Killed); }
      if t.Fails? { return Some(Ambiguous(s, QAbsent, c)); }
      stopped := None;
    }

    /** Why an undisturbed deletion is refused at its first look at the source. */
    function Refusal(): Option<Reply>
      reads this`source
    {
      if source.None? then Some(Precondition("unsafe-file"))
      else if source == Some(Special) || target.Special? then Some(Precondition("not-regular-file"))
      else if source.value.identity != target.identity then Some(Precondition("identity-mismatch"))
      else if source.value.digest != target.digest then Some(Precondition("hash-mismatch"))
      else None
    }

    /** What an undisturbed deletion answers now. */
    function DeleteOutlook(): Reply
      reads this
    {
      if Refusal().Some? then Refusal().value
      else if quarantine != NoQuarantine || receipt != NoReceipt then NEEDS_RECONCILIATION
      else Ok(Report(Gone, EntryDeleted, Created, true, 3))
    }

    /** Opens, compares and hashes the source; None when it is the target. */
    method Examine(chaos: bool, busy: bool) returns (stopped: Option<Reply>)
      modifies this`source
      ensures OthersMayMeddle(busy)
      ensures stopped.None? ==> target.Regular? && source == Some(target)
      ensures stopped.Some? ==> PlainError(stopped.value)
      ensures !chaos && target.Regular? && old(source) == Some(target) ==> stopped.None?
      ensures !chaos && !busy ==> stopped == old(Refusal())
    {
      var t := Gap(chaos, busy);
      if t.Dies? { return Some(Killed); }
      if t.Fails? || source.None? { return Some(Precondition("unsafe-file")); }
      if source == Some(Special) || target.Special? { return Some(Precondition("not-regular-file")); }
      var held := source.value;
      if held.identity != target.identity { return Some(Precondition("identity-mismatch")); }
      t := Gap(chaos, busy);
      if t.Dies? { return Some(Killed); }
      if t.Fails? {
        var failed := HashFailure();
        return Some(failed);
      }
      if held.digest != target.digest { return Some(Precondition("hash-mismatch")); }
      stopped := None;
    }

    /** Makes the private quarantine directory and renames the source into it; undoes it when the rename fails. */
    method EnterQuarantine(chaos: bool, busy: bool) returns (stopped: Option<Reply>)
      requires source == Some(target)
      modifies this`source, this`quarantine, this`syncs
      ensures stopped.None? ==> old(quarantine) == NoQuarantine && quarantine == Directory(map["entry" := target])
                                && source == None && syncs == old(syncs)
      ensures stopped.Some? ==> PlainError(stopped.value) && source == Some(target)
                                && (quarantine == old(quarantine) || (old(quarantine) == NoQuarantine && quarantine == Directory(map[])))
      ensures !chaos ==> stopped == if old(quarantine) == NoQuarantine then None else Some(NEEDS_RECONCILIATION)
      ensures stopped.Some? && stopped.value.Err? && stopped.value.failure.outcome == "not-applied" ==> quarantine == old(quarantine)
    {
      var t := Gap(chaos, busy);
      if t.Dies? { return Some(Killed); }
      if quarantine != NoQuarantine { return Some(NEEDS_RECONCILIATION); }
      if t.Fails? { return Some(Err(Failure("quarantine-create-failed", "mutation", "not-applied", None))); }
      quarantine := Directory(map[]);
      t := Gap(chaos, busy);
      if t.Dies? { return Some(Killed); }
      if t.Fails? { return Some(Unknown("quarantine-open-failed")); }
      t := Gap(chaos, busy);
      if t.Dies? { return Some(Killed); }
      if t.Fails? {
        t := Gap(chaos, busy);
        if t.Dies? { return Some(Killed); }
        if t.Fails? { return Some(Unknown("source-reconciliation-required")); }
        t := RemoveQuarantine(chaos, busy);
        if t.Dies? { return Some(Killed); }
        if t.Fails? { return Some(Unknown("quarantine-cleanup-failed")); }
        t := SyncDirectory(chaos, busy);
        if t.Dies? { return Some(Killed); }
        if t.Fails? { return Some(Err(Failure("durability-failed", "durability", "unknown", None))); }
        var failed := RenameFailure();
        return Some(failed);
      }
      quarantine, source := Directory(map["entry" := target]), None;
      stopped := None;
    }

    /** Deletes the file that has just been moved into quarantine: verifies it once more, writes its receipt, unlinks it. */
    method DeleteEntry(chaos: bool, busy: bool) returns (r: Reply)
      requires target.Regular? && source == None && quarantine == Directory(map["entry" := target])
      modifies this
      ensures OthersMayMeddle(busy) && FailsClosed()
      ensures old(Reachable()) ==> Reachable()
      ensures r.Ok? ==> r.report == Report(Gone, EntryDeleted, Created, true, 3) && quarantine == NoQuarantine
                        && old(receipt) == NoReceipt && receipt == Written(marker)
                        && syncs == old(syncs) + 3 && fileSyncs == old(fileSyncs) + 1
      ensures !chaos ==> r == if old(receipt) == NoReceipt then Ok(Report(Gone, EntryDeleted, Created, true, 3)) else NEEDS_RECONCILIATION
      ensures r.Err? ==> DeleteFailure(r.failure) && (r.failure.details.Some? ==> chaos)
      ensures r.Err? && r.failure.outcome == "not-applied" ==>
                receipt == old(receipt) && quarantine == old(quarantine) && r.failure.code in HASH_ERRORS
    {
      if reopens {
        var t := Gap(chaos, busy);
        if t.Dies? { return Killed; }
        if t.Fails? { return Ambiguous(SourceAbsent, QUnreadable, Seen(ReceiptAbsent)); }
      }
      var check := Verify(chaos);
      if check.CheckFailed? {
        r := HashFailure();
        return;
      }
      if check.Mismatch? { return Ambiguous(SourceAbsent, QOther, Seen(ReceiptAbsent)); }
      var t := CreateReceipt(chaos, busy);
      if t.Dies? { return Killed; }
      if t.Fails? { return NEEDS_RECONCILIATION; }
      var stopped := Finish(chaos, busy, SourceAbsent, Seen(ReceiptExact));
      if stopped.Some? { return stopped.value; }
      return Ok(Report(Gone, EntryDeleted, Created, true, 3));
    }

    /**
     Deletes the target. In every outcome, a kill at any call included, the target is not lost;
     a success means it was there, is gone, and has an exact receipt.
     */
    method Delete(chaos: bool, busy: bool) returns (r: Reply)
      modifies this
      ensures FailsClosed()
      ensures !busy ==> source in {old(source), None}
      ensures old(Reachable()) ==> Reachable()
      ensures r.Ok? ==> old(source) == Some(target) && Deleted() && Settled()
      ensures r.Ok? ==> AcceptsDelete(SerializeReport(r.report, deleteId), deleteId)
                        && syncs == old(syncs) + r.report.parents && fileSyncs == old(fileSyncs) + 1
      ensures old(Settled()) && old(source) == Some(target) && !chaos ==> r.Ok?
      ensures !chaos && !busy ==> r == old(DeleteOutlook())
      ensures old(source) != Some(target) ==> !r.Ok? && quarantine == old(quarantine) && receipt == old(receipt)
      ensures r.Err? ==> DeleteFailure(r.failure)
      ensures r.Err? ==> (AcceptsError(CallDelete, SerializeError(r.failure, deleteId), deleteId) <==> r.failure.details.None?)
      ensures r.Err? && r.failure.details.Some? ==> chaos && old(source) == Some(target) && source != Some(target)
      ensures r.Err? && r.failure.outcome == "not-applied" ==>
                receipt == old(receipt)
                && (quarantine == old(quarantine)
                    || (quarantine == Directory(map["entry" := target]) && r.failure.code in HASH_ERRORS))
    {
      hide AcceptsError, SerializeError, DeleteFailure;
      var stopped := Examine(chaos, busy);
      if stopped.None? { stopped := EnterQuarantine(chaos, busy); }
      if stopped.Some? {
        r := stopped.value;
      } else {
        r := DeleteEntry(chaos, busy);
      }
      if r.Err? { ErrorAccepted(CallDelete, r.failure, deleteId); }
    }

    method Observe(chaos: bool) returns (s: SourceObservation, q: QuarantineObservation, c: ReceiptObservation)
      ensures s == SeeSource(source, target) || (chaos && s == SourceUnreadable)
      ensures q == SeeQuarantine(quarantine, target) || (chaos && q == QUnreadable)
      ensures c == SeeReceipt(receipt, marker) || (chaos && c == ReceiptUnreadable)
    {
      s, q, c := SeeSource(source, target), SeeQuarantine(quarantine, target), SeeReceipt(receipt, marker);
      if chaos {
        var a, b, d: bool := *, *, *;
        if a { s := SourceUnreadable; }
        if b { q := QUnreadable; }
        if d { c := ReceiptUnreadable; }
      }
    }

    /** What an undisturbed call would report now: the table applied to the three names. */
    function Outlook(): Option<Report>
      reads this
    {
      Verdict(SeeSource(source, target), SeeQuarantine(quarantine, target), SeeReceipt(receipt, marker))
    }

    /** What an undisturbed reconciliation answers now. */
    function ReconcileOutlook(): Reply
      reads this
    {
      if Outlook().Some? then Ok(Outlook().value)
      else Ambiguous(SeeSource(source, target), SeeQuarantine(quarantine, target), Seen(SeeReceipt(receipt, marker)))
    }

    /** No entry to delete: removes an empty quarantine, syncs, and reports. */
    method ReconcileEmpty(chaos: bool, busy: bool, s: SourceObservation, q: QuarantineObservation, c: ReceiptObservation) returns (r: Reply)
      requires (q == QAbsent && quarantine == NoQuarantine) || (q == QEmpty && quarantine == Directory(map[]))
      requires s in {SeeSource(source, target), SourceUnreadable} && c == SeeReceipt(receipt, marker)
      modifies this`source, this`quarantine, this`syncs
      ensures OthersMayMeddle(busy) && FailsClosed()
      ensures old(Reachable()) ==> Reachable()
      ensures quarantine == old(quarantine) || quarantine == NoQuarantine
      ensures quarantine != old(quarantine) ==> Verdict(s, q, c).Some?
      ensures r.Ok? ==> Some(r.report) == Verdict(s, q, c) && quarantine == NoQuarantine && syncs == old(syncs) + r.report.parents
      ensures !chaos ==> !r.Killed? && (r.Ok? <==> Verdict(s, q, c).Some?) && (r.Err? ==> r == Ambiguous(s, q, Seen(c)))
      ensures !chaos && !busy && (q == QAbsent || r.Err?) ==> Now() == old(Now())
      ensures r.Err? ==> ReconcileFailure(r.failure) && (r.failure.details.Some? ==> r.failure.details.value.receipt != Created)
    {
      if s == SourceExpected && c == ReceiptAbsent {
        if q == QAbsent { return Ok(Report(Retained, WasAbsent, Seen(ReceiptAbsent), false, 0)); }
        var t := RemoveQuarantine(chaos, busy);
        if t.Dies? { return Killed; }
        if t.Fails? { return Ambiguous(SourceExpected, QEmpty, Seen(ReceiptAbsent)); }
        t := SyncDirectory(chaos, busy);
        if t.Dies? { return Killed; }
        if t.Fails? { return Ambiguous(SourceExpected, QAbsent, Seen(ReceiptAbsent)); }
        return Ok(Report(Retained, EmptyRemoved, Seen(ReceiptAbsent), false, 1));
      }
      if !SourceMovedOn(s) || c != ReceiptExact { return Ambiguous(s, q, Seen(c)); }
      if q == QEmpty {
        var t := SyncDirectory(chaos, busy);
        if t.Dies? { return Killed; }
        if t.Fails? { return Ambiguous(s, QEmpty, Seen(ReceiptExact)); }
        t := RemoveQuarantine(chaos, busy);
        if t.Dies? { return Killed; }
        if t.Fails? { return Ambiguous(s, QEmpty, Seen(ReceiptExact)); }
      }
      var t := SyncDirectory(chaos, busy);
      if t.Dies? { return Killed; }
      if t.Fails? { return Ambiguous(s, QAbsent, Seen(ReceiptExact)); }
      return Ok(if q == QAbsent then Report(DeletedNote(s), WasAbsent, Seen(ReceiptExact), false, 1)
                else Report(DeletedNote(s), EmptyRemoved, Seen(ReceiptExact), false, 2));
    }

    /** The target is still in quarantine: makes sure of the receipt, then finishes the deletion. */
    method ReconcileEntry(chaos: bool, busy: bool, s: SourceObservation, c: ReceiptObservation) returns (r: Reply)
      requires quarantine == Directory(map["entry" := target])
      requires s in {SeeSource(source, target), SourceUnreadable}
      requires c in {ReceiptAbsent, ReceiptExact} && c == SeeReceipt(receipt, marker)
      modifies this
      ensures OthersMayMeddle(busy) && FailsClosed()
      ensures old(Reachable()) ==> Reachable()
      ensures receipt == old(receipt) || (old(receipt) == NoReceipt && receipt.Written? && receipt.bytes <= marker)
      ensures quarantine in {old(quarantine), Directory(map[]), NoQuarantine}
      ensures quarantine != old(quarantine) ==> receipt == Written(marker) && SourceMovedOn(s)
      ensures receipt != old(receipt) ==> SourceMovedOn(s)
      ensures r.Ok? ==> Some(r.report) == Verdict(s, QExpected, c)
                        && quarantine == NoQuarantine && receipt == Written(marker)
                        && syncs == old(syncs) + r.report.parents
                        && fileSyncs == old(fileSyncs) + (if r.report.fileSynced then 1 else 0)
      ensures !chaos ==> !r.Killed? && (r.Ok? <==> SourceMovedOn(s)) && (r.Err? ==> r == Ambiguous(s, QExpected, Seen(c)))
      ensures !chaos && !busy && r.Err? ==> Now() == old(Now())
      ensures r.Err? ==> ReconcileFailure(r.failure)
      ensures r.Err? && r.failure.details.Some? && r.failure.details.value.receipt == Created ==>
                old(receipt) == NoReceipt && receipt == Written(marker)
    {
      if s in {SourceExpected, SourceUnreadable} { return Ambiguous(s, QExpected, Seen(c)); }
      var note := Seen(ReceiptExact);
      if c == ReceiptAbsent {
        var t := CreateReceipt(chaos, busy);
        if t.Dies? { return Killed; }
        if t.Fails? {
          var _, _, seen := Observe(chaos);
          return Ambiguous(s, QExpected, Seen(seen));
        }
        note := Created;
      }
      var check := Verify(chaos);
      if check.CheckFailed? {
        r := HashFailure();
        return;
      }
      if check.Mismatch? { return Ambiguous(s, QOther, note); }
      var stopped := Finish(chaos, busy, s, note);
      if stopped.Some? { return stopped.value; }
      return Ok(Report(DeletedNote(s), EntryDeleted, note, note.Created?, if note.Created? then 3 else 2));
    }

    /** What follows from the observations. */
    method Decide(chaos: bool, busy: bool, s: SourceObservation, q: QuarantineObservation, c: ReceiptObservation) returns (r: Reply)
      requires s in {SeeSource(source, target), SourceUnreadable}
      requires q in {SeeQuarantine(quarantine, target), QUnreadable}
      requires c in {SeeReceipt(receipt, marker), ReceiptUnreadable}
      modifies this
      ensures OthersMayMeddle(busy) && FailsClosed()
      ensures old(Reachable()) ==> Reachable()
      ensures r.Ok? ==> Some(r.report) == Verdict(s, q, c) && quarantine == NoQuarantine
                        && syncs == old(syncs) + r.report.parents
                        && fileSyncs == old(fileSyncs) + (if r.report.fileSynced then 1 else 0)
                        && (if r.report.source.Retained? then receipt == NoReceipt else receipt == Written(marker))
      ensures !chaos ==> !r.Killed? && (r.Ok? <==> Verdict(s, q, c).Some?) && (r.Err? ==> r == Ambiguous(s, q, Seen(c)))
      ensures !chaos && !busy && (old(Settled()) || r.Err?) ==> Now() == old(Now())
      ensures r.Err? ==> ReconcileFailure(r.failure)
      ensures r.Err? && r.failure.details.Some? && r.failure.details.value.receipt == Created ==>
                old(receipt) == NoReceipt && receipt == Written(marker)
      ensures old(quarantine) == NoQuarantine ==> quarantine == NoQuarantine && receipt == old(receipt)
    {
      hide NoLoss, SeeSource;
      if c in {ReceiptOther, ReceiptOdd, ReceiptUnreadable} {
        r := Ambiguous(s, q, Seen(c));
      } else if q in {QAbsent, QEmpty} {
        r := ReconcileEmpty(chaos, busy, s, q, c);
      } else if q == QExpected {
        QuarantinedShape(quarantine, target);
        r := ReconcileEntry(chaos, busy, s, c);
      } else {
        r := Ambiguous(s, q, Seen(c));
      }
    }

    /**
     Resolves an interrupted deletion. It never writes the source name, loses nothing, and
     undisturbed it succeeds exactly when the table has an answer for the state it finds.
     */
    method Reconcile(chaos: bool, busy: bool) returns (r: Reply)
      modifies this
      ensures OthersMayMeddle(busy) && FailsClosed()
      ensures old(Reachable()) ==> Reachable()
      ensures r.Ok? ==> AcceptsReconcile(SerializeReport(r.report, deleteId), deleteId)
                        && quarantine == NoQuarantine
                        && syncs == old(syncs) + r.report.parents
                        && fileSyncs == old(fileSyncs) + (if r.report.fileSynced then 1 else 0)
                        && (if r.report.source.Retained? then receipt == NoReceipt else receipt == Written(marker))
      ensures r.Ok? && !busy ==> old(Outlook()) == Some(r.report)
      ensures !chaos ==> !r.Killed?
      ensures !chaos && !busy ==> r == old(ReconcileOutlook())
      ensures !chaos && !busy && (old(Settled()) || r.Err?) ==> Now() == old(Now())
      ensures r.Err? ==> ReconcileFailure(r.failure)
      ensures r.Err? && r.failure.details.Some? && r.failure.details.value.receipt == Created ==>
                old(receipt) == NoReceipt && receipt == Written(marker)
      ensures r.Err? ==> (AcceptsError(CallReconcile, SerializeError(r.failure, deleteId), deleteId) <==>
                            !(r.failure.details.Some? && r.failure.details.value.receipt == Created))
      ensures old(quarantine) == NoQuarantine ==> quarantine == NoQuarantine && receipt == old(receipt)
    {
      hide SerializeReport, AcceptsReconcile, SerializeError, AcceptsError, NoLoss;
      var s, q, c := Observe(chaos);
      r := Decide(chaos, busy, s, q, c);
      if r.Ok? { VerdictAccepted(s, q, c, deleteId); }
      if r.Err? { ErrorAccepted(CallReconcile, r.failure, deleteId); }
    }

    /** The one state that runs can reach and reconciliation cannot resolve: a receipt that was only partly written. */
    lemma ResolvableUnlessTorn()
      requires Reachable()
      ensures Outlook().Some? <==> receipt == NoReceipt || receipt == Written(marker)
      ensures Outlook().None? ==> Quarantined() && receipt.Written? && receipt.bytes < marker
      ensures Outlook().Some? ==> (Outlook().value.source.Retained? <==> Intact())
    {
      if quarantine == Directory(map["entry" := target]) {
        assert quarantine.entries.Keys == {"entry"};
      }
    }

    /**
     That state is reached: a deletion that is killed while it writes any proper part of the
     marker leaves it, and reconciliation then answers with the same ambiguity every time.
     */
    method TornDeletion(written: nat) returns (r: Reply)
      requires Settled() && source == Some(target) && written < |marker|
      modifies this
      ensures Quarantined() && receipt == Written(marker[..written]) && receipt.bytes < marker && Outlook().None?
      ensures r == Ambiguous(SourceAbsent, QExpected, Seen(ReceiptOther))
    {
      var _ := Examine(false, false);
      var _ := EnterQuarantine(false, false);
      receipt := Written([]);
      WriteReceipt(written);
      assert quarantine.entries.Keys == {"entry"};
      assert |marker[..written]| < |marker|;
      r := Reconcile(false, false);
    }

    /** An error that claims nothing was applied although the file was moved: the quarantined file could not be hashed. */
    method UnreadableDeletion() returns (r: Reply)
      requires Settled() && source == Some(target)
      modifies this
      ensures r.Err? && r.failure.outcome == "not-applied" && Quarantined()
    {
      var _ := Examine(false, false);
      var _ := EnterQuarantine(false, false);
      r := HashFailure();
    }

    /** A second reconciliation of a settled volume says the same thing again. */
    lemma SettledOutlook()
      requires Settled()
      ensures Outlook().Some? && Outlook().value.quarantine == WasAbsent && !Outlook().value.fileSynced
      ensures Outlook().value.source.Retained? <==> Intact()
    {
    }

    /** Two undisturbed reconciliations: the second changes nothing and agrees with the first. */
    method ReconcileTwice() returns (first: Reply, settled: State, second: Reply)
      requires Reachable()
      modifies this
      ensures Reachable() && NoLoss()
      ensures first.Ok? ==> Settled() && (first.report.source.Retained? <==> Intact())
      ensures first.Ok? ==> second.Ok? && second.report.source == first.report.source && second.report.quarantine == WasAbsent
      ensures first.Err? ==> Quarantined() && receipt.Written? && receipt.bytes < marker && second == first
      ensures settled == Now()
      ensures !first.Killed?
    {
      hide FailsClosed, AcceptsReconcile, AcceptsError;
      ResolvableUnlessTorn();
      first := Reconcile(false, false);
      if first.Ok? { SettledOutlook(); }
      ResolvableUnlessTorn();
      settled := Now();
      second := Reconcile(false, false);
    }

    /**
     Any run: deletions and reconciliations in any order, each disturbed and killed anywhere,
     while other programs use the source name. The target is never lost, and afterwards an
     undisturbed reconciliation settles the volume unless a receipt was torn; a further one
     changes nothing and agrees.
     */
    method Session(calls: seq<Call>) returns (first: Reply, settled: State, second: Reply)
      requires Intact()
      modifies this
      ensures Reachable() && NoLoss()
      ensures first.Ok? ==> Settled() && (first.report.source.Retained? <==> Intact())
      ensures first.Ok? ==> second.Ok? && second.report.source == first.report.source && second.report.quarantine == WasAbsent
      ensures first.Err? ==> Quarantined() && receipt.Written? && receipt.bytes < marker && second == first
      ensures settled == Now()
      ensures !first.Killed?
    {
      for k := 0 to |calls|
        invariant Reachable()
      {
        var r;
        match calls[k] {
          case CallDelete => r := Delete(true, true);
          case CallReconcile => r := Reconcile(true, true);
        }
      }
      first, settled, second := ReconcileTwice();
    }
  }

  lemma QuarantinedShape(quarantine: Quarantine, target: Object)
    requires SeeQuarantine(quarantine, target) == QExpected
    ensures quarantine == Directory(map["entry" := target])
  {
    assert quarantine.entries == map["entry" := target];
  }
}
