/**
 The durable job history: an append-only file of job creations and events, replayed through
 the job state machine when it is loaded.
 */
module JobHistory {
  import opened JavaScript
  import opened LineLog
  import opened JobStateMachine
  import DateNames

  datatype Operation = OpCopy | OpMove | OpSkip

  datatype PreviewRow = PreviewRow(sourcePath: string, targetPath: string, size: nat, operation: Operation)

  datatype Creation = Creation(jobId: string, createdAt: string, previewId: string, options: string, rows: Option<seq<PreviewRow>>)

  /** `Unrecognized` is JSON that is not a record of the supported schema. */
  datatype Record = Created(creation: Creation) | Appended(event: Event) | Unrecognized

  datatype Job = Job(creation: Creation, events: seq<Event>, machine: Snapshot)

  /** The in-memory map; `order` is its insertion order. */
  datatype Jobs = Jobs(order: seq<string>, byId: map<string, Job>)

  // ---- Replay ----

  function SeedEvents(c: Creation): seq<Event> {
    [Event(PreviewStarted, c.jobId, 1, c.createdAt, OtherBody), Event(PreviewReadyEvent, c.jobId, 2, c.createdAt, OtherBody)]
  }

  function Seed(c: Creation): Snapshot {
    Snapshot(c.jobId, PreviewReady, 2, Some(PreviewReadyEvent), None)
  }

  /** Seeding never fails: a new machine accepts both preview events. */
  lemma SeedIsRun(c: Creation)
    ensures Run(Fresh(c.jobId), SeedEvents(c)) == Some(Seed(c))
  {
    var events := SeedEvents(c);
    RunAppend(Fresh(c.jobId), [], events[0]);
    RunAppend(Fresh(c.jobId), [events[0]], events[1]);
    assert [] + [events[0]] == [events[0]] && [events[0]] + [events[1]] == events;
  }

  predicate OutcomeMatchesRow(row: PreviewRow, o: FileOutcome) {
    && o.sourcePath == row.sourcePath && o.destinationPath == row.targetPath && o.plannedBytes == row.size
    && (row.operation == OpSkip ==> o.state == FileSkipped && o.committedBytes == 0 && o.sourceRetained)
    && (row.operation != OpSkip && o.state == FileCompleted ==>
          o.committedBytes == o.plannedBytes && o.sourceRetained == (row.operation != OpMove))
    && (row.operation != OpSkip && o.state == CommittedSourceRetained ==>
          row.operation == OpMove && o.committedBytes == o.plannedBytes && o.sourceRetained)
  }

  /** The checks of `enforceImmutableEventFields`. */
  predicate FieldsMatch(c: Creation, e: Event) {
    if e.kind == JobQueued then
      e.body.QueuedBody? && e.body.previewId == c.previewId && e.body.options == c.options
    else if e.kind in {JobCancelled, JobPartiallyCompleted} && c.rows.Some? then
      && e.body.OutcomesBody? && |e.body.outcomes| == |c.rows.value|
      && forall i :: 0 <= i < |c.rows.value| ==> OutcomeMatchesRow(c.rows.value[i], e.body.outcomes[i])
    else true
  }

  /** One persisted record applied to the jobs; None where loading reports corruption. */
  function ApplyRecord(jobs: Jobs, r: Record): Option<Jobs> {
    match r
    case Unrecognized => None
    case Created(c) =>
      if c.jobId in jobs.byId then None
      else Some(Jobs(jobs.order + [c.jobId], jobs.byId[c.jobId := Job(c, [], Seed(c))]))
    case Appended(e) =>
      if e.jobId !in jobs.byId then None
      else
        var job := jobs.byId[e.jobId];
        if !FieldsMatch(job.creation, e) || Judge(job.machine, e).Rejected? then None
        else Some(jobs.(byId := jobs.byId[e.jobId := Job(job.creation, job.events + [e], Judge(job.machine, e).snapshot)]))
  }

  const NO_JOBS := Jobs([], map[])

  function Replay(records: seq<Record>): Option<Jobs> {
    if records == [] then Some(NO_JOBS)
    else
      var before := Replay(records[..|records| - 1]);
      if before.None? then None else ApplyRecord(before.value, records[|records| - 1])
  }

  lemma ReplayAppend(records: seq<Record>, r: Record)
    ensures Replay(records + [r]) == if Replay(records).Some? then ApplyRecord(Replay(records).value, r) else None
  {
    assert (records + [r])[..|records|] == records;
  }

  lemma {:induction false} ReplayPrefix(records: seq<Record>, k: nat)
    requires k <= |records| && Replay(records).Some?
    ensures Replay(records[..k]).Some?
  {
    if k < |records| {
      var n := |records| - 1;
      ReplayPrefix(records[..n], k);
      assert records[..n][..k] == records[..k];
    } else {
      assert records[..k] == records;
    }
  }

  /** A job whose machine is the seeded replay of its events. */
  ghost predicate JobOk(id: string, job: Job) {
    && job.creation.jobId == id && job.machine.jobId == id
    && Run(Seed(job.creation), job.events) == Some(job.machine)
    && forall i :: 0 <= i < |job.events| ==> job.events[i].jobId == id && FieldsMatch(job.creation, job.events[i])
  }

  ghost predicate JobsOk(jobs: Jobs) {
    && (forall id :: id in jobs.byId <==> id in jobs.order)
    && (forall i, j :: 0 <= i < j < |jobs.order| ==> jobs.order[i] != jobs.order[j])
    && (forall id :: id in jobs.byId ==> JobOk(id, jobs.byId[id]))
  }

  lemma ApplyKeepsOk(jobs: Jobs, r: Record)
    requires JobsOk(jobs) && ApplyRecord(jobs, r).Some?
    ensures JobsOk(ApplyRecord(jobs, r).value)
  {
    var after := ApplyRecord(jobs, r).value;
    match r
    case Created(c) =>
      assert JobOk(c.jobId, after.byId[c.jobId]);
    case Appended(e) =>
      var job := jobs.byId[e.jobId];
      assert JobOk(e.jobId, job);
      RunAppend(Seed(job.creation), job.events, e);
      assert JobOk(e.jobId, after.byId[e.jobId]);
  }

  /** Whatever history is loaded, every job is in the state its own events lead to. */
  lemma {:induction false} ReplayedJobsOk(records: seq<Record>)
    requires Replay(records).Some?
    ensures JobsOk(Replay(records).value)
  {
    if records != [] {
      ReplayedJobsOk(records[..|records| - 1]);
      ApplyKeepsOk(Replay(records[..|records| - 1]).value, records[|records| - 1]);
    }
  }

  /** Ordered events, at most one terminal event, the last, and at most six status changes since creation. */
  ghost predicate WellRun(job: Job) {
    && (forall i, j :: 0 <= i < j < |job.events| ==> job.events[i].sequence < job.events[j].sequence)
    && (forall i :: 0 <= i < |job.events| ==> job.events[i].sequence > 2)
    && (forall i :: 0 <= i < |job.events| && TerminalKind(job.events[i].kind) ==> i == |job.events| - 1)
    && (Terminal(job.machine.status) <==> job.events != [] && TerminalKind(job.events[|job.events| - 1].kind))
    && StatusChanges(SeedEvents(job.creation) + job.events) <= 6
  }

  lemma JobOkWellRun(id: string, job: Job)
    requires JobOk(id, job)
    ensures WellRun(job)
  {
    hide FieldsMatch, Run, Judge, StatusChanges;
    var seed, seeds := Seed(job.creation), SeedEvents(job.creation);
    SequencesIncrease(seed, job.events);
    TerminalIsLast(seed, job.events);
    FewStatusChanges(seed, job.events);
    ChangesAppend(seeds, job.events);
    SeedIsRun(job.creation);
    FewStatusChanges(Fresh(job.creation.jobId), seeds);
  }

  /** Every job of every history that loads is well run. */
  lemma LoadedJobsWellRun(records: seq<Record>)
    requires Replay(records).Some?
    ensures forall id :: id in Replay(records).value.byId ==> WellRun(Replay(records).value.byId[id])
  {
    ReplayedJobsOk(records);
    forall id | id in Replay(records).value.byId ensures WellRun(Replay(records).value.byId[id]) {
      JobOkWellRun(id, Replay(records).value.byId[id]);
    }
  }

  lemma {:induction false} ChangesAppend(a: seq<Event>, b: seq<Event>)
    ensures StatusChanges(a + b) == StatusChanges(a) + StatusChanges(b)
  {
    if b == [] {
      assert a + b == a;
    } else {
      var n := |b| - 1;
      assert (a + b)[..|a| + n] == a + b[..n];
      ChangesAppend(a, b[..n]);
    }
  }

  // ---- Job ids and times ----

  predicate HexDigit(c: char) {
    '0' <= c <= '9' || 'a' <= c <= 'f' || 'A' <= c <= 'F'
  }

  predicate Uuid(s: string) {
    && |s| == 36
    && forall i :: 0 <= i < 36 ==>
         if i in {8, 13, 18, 23} then s[i] == '-'
         else if i == 14 then '1' <= s[i] <= '5'
         else if i == 19 then s[i] in "89abAB"
         else HexDigit(s[i])
  }

  /** The text of a time as `toISOString` writes it, within the years 1 to 9999. */
  predicate Timestamp(s: string) {
    && |s| == 24 && DateNames.SecondShape(s[..19]) && DateNames.RealMoment(s[..19])
    && s[19] == '.' && DateNames.Digits(s[20..23]) && s[23] == 'Z'
  }

  ghost predicate UuidsOf(records: seq<Record>) {
    forall r :: r in records && r.Created? ==> Uuid(r.creation.jobId)
  }

  /** The job ids of a history are those of its creations. */
  lemma {:induction false} ReplayUuids(records: seq<Record>)
    requires UuidsOf(records) && Replay(records).Some?
    ensures forall id :: id in Replay(records).value.byId ==> Uuid(id)
  {
    if records != [] {
      hide Uuid;
      var n := |records| - 1;
      assert records[n] in records;
      ReplayUuids(records[..n]);
    }
  }

  // ---- Interrupted jobs ----

  predicate Active(s: Status) {
    s in {Previewing, Queued, Processing, Cancelling}
  }

  function Failing(jobId: string, sequence: int, now: string): Event {
    Event(JobFailed, jobId, sequence, now, OtherBody)
  }

  function Interruption(job: Job, now: string): Event {
    Failing(job.creation.jobId, job.machine.lastSequence + 1, now)
  }

  /** A job after recovery: an interrupted one has failed, at the next sequence number. */
  function Recovered(job: Job, now: string): Job {
    if Active(job.machine.status)
    then Job(job.creation, job.events + [Interruption(job, now)],
             Snapshot(job.machine.jobId, Failed, job.machine.lastSequence + 1, Some(JobFailed), Some(JobFailed)))
    else job
  }

  /** Every active job still has a sequence number to fail with, and the clock shows a time. */
  ghost predicate Recoverable(jobs: Jobs, now: string) {
    forall id :: id in jobs.byId && Active(jobs.byId[id].machine.status) ==>
      jobs.byId[id].machine.lastSequence < MAX_SAFE_INTEGER && Timestamp(now)
  }

  ghost predicate NoneActive(jobs: Jobs) {
    forall id :: id in jobs.byId ==> !Active(jobs.byId[id].machine.status)
  }

  /** `after` is an interrupted job `before`, failed once at the next sequence number. */
  predicate FailedFrom(before: Job, after: Job) {
    && Active(before.machine.status) && before.machine.lastSequence < MAX_SAFE_INTEGER
    && |after.events| == |before.events| + 1
    && after == Recovered(before, after.events[|before.events|].emittedAt)
  }

  /** Some interrupted jobs of `before` have failed in `after`; nothing else changed. */
  ghost predicate PartlyRecovered(before: Jobs, after: Jobs) {
    && after.order == before.order && after.byId.Keys == before.byId.Keys
    && forall id :: id in before.byId ==> after.byId[id] == before.byId[id] || FailedFrom(before.byId[id], after.byId[id])
  }

  /** Every interrupted job of `before` has failed exactly once in `after`; nothing else changed. */
  ghost predicate AllRecovered(before: Jobs, after: Jobs) {
    && after.order == before.order && after.byId.Keys == before.byId.Keys
    && forall id :: id in before.byId ==>
         if Active(before.byId[id].machine.status) then FailedFrom(before.byId[id], after.byId[id])
         else after.byId[id] == before.byId[id]
  }

  /** Recovery that was cut short any number of times still adds one event per interrupted job. */
  lemma RecoveryComposes(before: Jobs, mid: Jobs, after: Jobs)
    requires PartlyRecovered(before, mid)
    ensures PartlyRecovered(mid, after) ==> PartlyRecovered(before, after)
    ensures AllRecovered(mid, after) ==> AllRecovered(before, after)
    ensures forall now :: Timestamp(now) ==> (Recoverable(before, now) <==> Recoverable(mid, now))
  {
  }

  /** Recovering again adds nothing. */
  lemma RecoveredOnce(before: Jobs, after: Jobs)
    requires AllRecovered(before, after)
    ensures NoneActive(after) && forall now :: Recoverable(after, now)
    ensures forall again :: AllRecovered(after, again) ==> again == after
  {
    forall again | AllRecovered(after, again) ensures again == after {
      assert again.byId == after.byId;
    }
  }

  /** The interruption event is always accepted. */
  lemma InterruptionAccepted(id: string, job: Job, now: string)
    requires JobOk(id, job) && Active(job.machine.status) && job.machine.lastSequence < MAX_SAFE_INTEGER
    ensures Judge(job.machine, Interruption(job, now)) == Accepted(Recovered(job, now).machine)
    ensures FieldsMatch(job.creation, Interruption(job, now))
  {
    SequencesIncrease(Seed(job.creation), job.events);
  }

  // ---- What a file holds ----

  /** The records of the complete lines; None if one of them is not a record. */
  function CompleteRecords(codec: Codec<Record>, raw: Bytes): Option<seq<Record>> {
    DecodeAll(codec, Lines(raw))
  }

  function TailRecord(codec: Codec<Record>, tail: Bytes): Option<Record> {
    if tail == [] then None else codec.decode(tail)
  }

  function WithTail(records: seq<Record>, last: Option<Record>): seq<Record> {
    if last.Some? then records + [last.value] else records
  }

  /** The records a file loads as; None where loading reports corruption. */
  function Load(codec: Codec<Record>, raw: Bytes): (records: Option<seq<Record>>)
    ensures records.Some? ==> Replay(records.value).Some?
  {
    var complete := CompleteRecords(codec, raw);
    if complete.None? then None
    else
      LoadOf(WithTail(complete.value, TailRecord(codec, Tail(raw))))
  }

  /** Records are loaded as they are when they replay. */
  function LoadOf(records: seq<Record>): Option<seq<Record>> {
    if Replay(records).Some? then Some(records) else None
  }

  /** The file after loading: a torn tail is cut off, a last record without its newline gets it. */
  function Repaired(codec: Codec<Record>, raw: Bytes): Bytes {
    if Tail(raw) == [] then raw
    else if codec.decode(Tail(raw)).Some? then raw + [LF]
    else Complete(raw)
  }

  /** A whole file whose lines are exactly these records. */
  ghost predicate Reads(codec: Codec<Record>, raw: Bytes, records: seq<Record>) {
    Whole(raw) && DecodeAll(codec, Lines(raw)) == Some(records)
  }

  /** What is assumed of the format: job ids are UUIDs, and the failure of a job at a valid time and number can be written. */
  ghost predicate CodecOk(codec: Codec<Record>) {
    && Lawful(codec) && SelfDelimiting(codec) && !codec.valid(Unrecognized)
    && (forall line {:trigger codec.decode(line)} ::
          codec.decode(line).Some? && codec.decode(line).value.Created? ==> Uuid(codec.decode(line).value.creation.jobId))
    && (forall id, sequence, now {:trigger Failing(id, sequence, now)} ::
          Uuid(id) && 0 < sequence <= MAX_SAFE_INTEGER && Timestamp(now) ==> codec.valid(Appended(Failing(id, sequence, now))))
  }

  lemma {:induction false} DecodedUuids(codec: Codec<Record>, lines: seq<Bytes>)
    requires CodecOk(codec) && DecodeAll(codec, lines).Some?
    ensures UuidsOf(DecodeAll(codec, lines).value)
  {
    if lines != [] {
      hide Uuid, Timestamp, Lawful, SelfDelimiting;
      DecodedUuids(codec, lines[..|lines| - 1]);
    }
  }

  /** A file of some records, then a part of a line, loads as those records and, if the part is a record, that one. */
  lemma LoadPart(codec: Codec<Record>, raw: Bytes, records: seq<Record>, part: Bytes)
    requires Reads(codec, raw, records) && LF !in part
    ensures Load(codec, raw + part) == LoadOf(WithTail(records, TailRecord(codec, part)))
    ensures Repaired(codec, raw + part) ==
              if part == [] then raw else if codec.decode(part).Some? then raw + part + [LF] else raw
  {
    hide SplitLines, DecodeAll, Replay, Complete;
    TailOfWhole(raw);
    SplitPart(raw, part);
    CompleteOfPart(raw, part);
    assert [] + part == part;
    assert part == [] ==> raw + part == raw;
  }

  /** A whole appended line is one more record. */
  lemma ReadsAppend(codec: Codec<Record>, raw: Bytes, records: seq<Record>, r: Record)
    requires Lawful(codec) && codec.valid(r) && Reads(codec, raw, records)
    ensures Reads(codec, raw + LineOf(codec, r), records + [r])
  {
    var line := codec.encode(r);
    assert raw + line + [LF] == raw + LineOf(codec, r);
    SplitLine(raw, line);
    DecodeAppend(codec, Lines(raw), line);
  }

  lemma LoadWhole(codec: Codec<Record>, raw: Bytes, records: seq<Record>)
    requires Reads(codec, raw, records)
    ensures Load(codec, raw) == LoadOf(records) && Repaired(codec, raw) == raw
  {
    assert raw + [] == raw;
    LoadPart(codec, raw, records, []);
  }

  /** Loading a file that was cut at any byte of its last append: the whole records, and the last one if only its newline is missing. */
  lemma LoadTorn(codec: Codec<Record>, raw: Bytes, records: seq<Record>, r: Record, cut: nat)
    requires CodecOk(codec) && Reads(codec, raw, records)
    requires codec.valid(r) && cut <= |LineOf(codec, r)|
    ensures var kept := cut >= |codec.encode(r)|;
            && Load(codec, raw + LineOf(codec, r)[..cut]) == LoadOf(if kept then records + [r] else records)
            && Repaired(codec, raw + LineOf(codec, r)[..cut]) == if kept then raw + LineOf(codec, r) else raw
  {
    hide Load, Repaired, Replay, Reads;
    var line := codec.encode(r);
    LinePart(codec, r, cut);
    if cut <= |line| {
      LoadPart(codec, raw, records, line[..cut]);
      assert cut == |line| ==> line[..cut] == line && raw + line + [LF] == raw + LineOf(codec, r);
    } else {
      assert LineOf(codec, r)[..cut] == LineOf(codec, r);
      ReadsAppend(codec, raw, records, r);
      LoadWhole(codec, raw + LineOf(codec, r), records + [r]);
    }
  }

  /** A part of a line is a record only when at most its newline is missing. */
  lemma LinePart(codec: Codec<Record>, r: Record, cut: nat)
    requires CodecOk(codec) && codec.valid(r) && cut <= |LineOf(codec, r)|
    ensures codec.encode(r) != []
    ensures cut <= |codec.encode(r)| ==>
              && LineOf(codec, r)[..cut] == codec.encode(r)[..cut] && LF !in codec.encode(r)[..cut]
              && TailRecord(codec, codec.encode(r)[..cut]) == (if cut == |codec.encode(r)| then Some(r) else None)
              && codec.decode(codec.encode(r)[..cut]) == if cut == |codec.encode(r)| then Some(r) else None
  {
    var line := codec.encode(r);
    assert codec.decode(line) == Some(r) && codec.decode([]) == None;
    assert Indivisible(codec, r);
    assert cut == |line| ==> line[..cut] == line;
  }

  // ---- One append ----

  /** The file gained some first part of the record's line. */
  ghost predicate Extends(codec: Codec<Record>, before: Bytes, after: Bytes, r: Record) {
    exists cut :: 0 <= cut <= |LineOf(codec, r)| && after == before + LineOf(codec, r)[..cut]
  }

  /** All of the record's text arrived, at most its newline is missing. */
  predicate Arrived(codec: Codec<Record>, before: Bytes, after: Bytes, r: Record) {
    codec.valid(r) && |before| + |codec.encode(r)| <= |after|
  }

  /** What a file loads as when one more record follows: nothing at all when its own replay rejects the record. */
  function LoadNext(codec: Codec<Record>, raw: Bytes, r: Record): Option<seq<Record>> {
    var records := Load(codec, raw);
    if records.Some? && ApplyRecord(Replay(records.value).value, r).Some?
    then Some(records.value + [r]) else None
  }

  /** An append, however it ended: the file loads as before, or as before and the record once its text arrived. */
  ghost predicate Appends(codec: Codec<Record>, before: Bytes, after: Bytes, r: Record) {
    && Extends(codec, before, after, r)
    && Load(codec, after) == if Arrived(codec, before, after, r) then LoadNext(codec, before, r) else Load(codec, before)
  }

  lemma NothingAppended(codec: Codec<Record>, raw: Bytes, r: Record)
    requires CodecOk(codec)
    ensures Appends(codec, raw, raw, r) && !Arrived(codec, raw, raw, r)
  {
    assert raw + LineOf(codec, r)[..0] == raw;
    assert codec.valid(r) ==> codec.decode(codec.encode(r)).Some? && codec.decode([]) == None;
  }

  lemma AppendLoads(codec: Codec<Record>, before: Bytes, after: Bytes, records: seq<Record>, r: Record)
    requires CodecOk(codec) && codec.valid(r) && Reads(codec, before, records) && Extends(codec, before, after, r)
    ensures Appends(codec, before, after, r)
    ensures Load(codec, after) == LoadOf(if Arrived(codec, before, after, r) then records + [r] else records)
    ensures after == before + LineOf(codec, r) ==> Reads(codec, after, records + [r])
  {
    assert Lawful(codec);
    hide Load, Replay, Reads, CodecOk;
    var cut :| 0 <= cut <= |LineOf(codec, r)| && after == before + LineOf(codec, r)[..cut];
    LoadWhole(codec, before, records);
    LoadTorn(codec, before, records, r, cut);
    ReplayAppend(records, r);
    if after == before + LineOf(codec, r) { ReadsAppend(codec, before, records, r); }
  }

  /** Reloading a repaired file gives the same records, and repairs nothing. */
  lemma LoadRepaired(codec: Codec<Record>, raw: Bytes)
    ensures Load(codec, Repaired(codec, raw)) == Load(codec, raw)
    ensures Whole(Repaired(codec, raw)) && Repaired(codec, Repaired(codec, raw)) == Repaired(codec, raw)
  {
    hide SplitLines, DecodeAll, Replay, Complete;
    CompleteSplit(raw);
    TailOfWhole(raw);
    if Tail(raw) != [] && codec.decode(Tail(raw)).Some? {
      SplitByte(raw, LF);
      DecodeAppend(codec, Lines(raw), Tail(raw));
    }
  }

  /**
   Every byte prefix of every log the store can have written loads: as its longest complete
   record prefix, plus the next record when only the newline is missing.
   */
  lemma EveryPrefixLoads(codec: Codec<Record>, records: seq<Record>, cut: nat) returns (kept: nat)
    requires CodecOk(codec) && AllValid(codec, records) && Replay(records).Some?
    requires cut <= |LogOf(codec, records)|
    ensures kept <= |records|
    ensures Load(codec, LogOf(codec, records)[..cut]) == Some(records[..kept])
    ensures Repaired(codec, LogOf(codec, records)[..cut]) == LogOf(codec, records[..kept])
    ensures |LogOf(codec, records[..kept])| <= cut + 1
    ensures kept < |records| ==> cut + 1 < |LogOf(codec, records[..kept + 1])|
  {
    var raw := LogOf(codec, records)[..cut];
    var whole, part := TornPrefix(codec, records, cut);
    if whole == |records| {
      assert records[..whole] == records && raw == LogOf(codec, records);
      ReadBack(codec, records);
      LoadWhole(codec, raw, records);
      return whole;
    }
    kept := PrefixInLine(codec, records, whole, part);
  }

  /** The prefix that ends `part` bytes into the line of record number `whole`. */
  lemma PrefixInLine(codec: Codec<Record>, records: seq<Record>, whole: nat, part: nat) returns (kept: nat)
    requires CodecOk(codec) && AllValid(codec, records) && Replay(records).Some?
    requires whole < |records| && part < |LineOf(codec, records[whole])|
    ensures whole <= kept <= |records|
    ensures var raw := LogOf(codec, records[..whole]) + LineOf(codec, records[whole])[..part];
            Load(codec, raw) == Some(records[..kept]) && Repaired(codec, raw) == LogOf(codec, records[..kept])
    ensures |LogOf(codec, records[..kept])| <= |LogOf(codec, records[..whole])| + part + 1
    ensures kept < |records| ==> |LogOf(codec, records[..whole])| + part + 1 < |LogOf(codec, records[..kept + 1])|
  {
    hide Load, Repaired, Replay, SplitLines, DecodeAll, Complete;
    var r := records[whole];
    ReplayPrefix(records, whole);
    ReplayPrefix(records, whole + 1);
    ReadBack(codec, records[..whole]);
    assert records[..whole + 1] == records[..whole] + [r];
    LoadTorn(codec, LogOf(codec, records[..whole]), records[..whole], r, part);
    LogAppend(codec, records[..whole], r);
    kept := if part < |codec.encode(r)| then whole else whole + 1;
    if kept == whole + 1 && kept < |records| { NextIsLonger(codec, records, kept); }
  }

  lemma NextIsLonger(codec: Codec<Record>, records: seq<Record>, k: nat)
    requires Lawful(codec) && AllValid(codec, records) && k < |records|
    ensures |LogOf(codec, records[..k + 1])| >= |LogOf(codec, records[..k])| + 2
  {
    var after := records[k];
    assert records[..k + 1] == records[..k] + [after];
    LogAppend(codec, records[..k], after);
    assert codec.encode(after) != [] by { assert codec.decode(codec.encode(after)).Some? && codec.decode([]) == None; }
  }
}
