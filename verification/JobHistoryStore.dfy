/**
 The store itself: appends with reconciliation of ambiguous writes, loading with repair of a torn
 tail, and recovery of interrupted jobs. With `chaos` set, any file operation may fail after
 doing part of its work, any ownership check may find a change or throw, and the process may
 be killed anywhere.
 */
module JobHistoryStore {
  import opened JavaScript
  import opened LineLog
  import opened JobStateMachine
  import opened JobHistory
  import opened LateRecords

  datatype Io = Works | Breaks | Dies

  datatype Ownership = Same | Changed | Throws

  /** `Threw` is an error of a file operation that was passed on as it is. */
  datatype Reply = Done | Refused | Threw | Killed

  /** `Open` starts a new process, `Reopen` initializes the same store object once more. */
  datatype Command = Open(now: string) | Reopen(now: string) | Create(creation: Creation) | Append(jobId: string, event: Event) {
    predicate IsRequest() {
      Create? || Append?
    }
  }

  function RecordOf(c: Command): Record
    requires c.IsRequest()
  {
    if c.Create? then Created(c.creation) else Appended(c.event)
  }

  /** What the file loads as, compared with the jobs it loaded as before: some interrupted ones failed once. */
  ghost predicate OnlyRecovered(codec: Codec<Record>, file: Bytes, before: Jobs) {
    Load(codec, file).Some? && PartlyRecovered(before, Replay(Load(codec, file).value).value)
  }

  /** What an opening does to the file, and when it works. */
  ghost predicate OpenedFile(codec: Codec<Record>, before: Bytes, after: Bytes, now: string, chaos: bool, reply: Reply) {
    if Load(codec, before).None? then !reply.Done? && Load(codec, after).None?
    else
      var jobs := Replay(Load(codec, before).value).value;
      && OnlyRecovered(codec, after, jobs) && Load(codec, before).value <= Load(codec, after).value
      && (NoneActive(jobs) ==> Load(codec, after) == Load(codec, before))
      && (!chaos ==> (reply.Done? <==> Recoverable(jobs, now)))
  }

  class Store {
    var file: Bytes
    var jobs: Jobs
    var poisoned: bool
    var initialized: bool
    ghost var log: seq<Record>      // the records in memory
    ghost var missing: seq<Record>  // the records of appends that threw late: in the file, but not in memory
    ghost var stored: seq<Record>   // the records in the file, without that of an append that poisoned the store
    const codec: Codec<Record>

    constructor (codec: Codec<Record>, file: Bytes)
      ensures this.codec == codec && this.file == file && !initialized && !poisoned
    {
      this.codec, this.file := codec, file;
      jobs, poisoned, initialized := NO_JOBS, false, false;
      log, missing, stored := [], [], [];
    }

    ghost predicate Valid()
      reads this
    {
      CodecOk(codec) && (initialized ==> Loaded())
    }

    /** Memory is the replay of its records; they are the file's, unless an append threw late or poisoned the store. */
    ghost predicate Loaded()
      reads `file, `jobs, `poisoned, `log, `missing, `stored
    {
      && Replay(log) == Some(jobs)
      && Merges(log, missing, stored) && (missing == [] ==> stored == log)
      && (Reads(codec, file, stored) || (poisoned && AppendTorn()))
    }

    /** The jobs with records in the file that memory does not have. */
    ghost function Behind(): set<string>
      reads this
    {
      if initialized then JobsOf(missing) else {}
    }

    /** The file is the old log plus some part of one line. */
    ghost predicate AppendTorn()
      reads `file, `log, `missing, `stored
    {
      exists raw, r, cut {:trigger PartAppended(raw, r, cut)} :: PartAppended(raw, r, cut)
    }

    ghost predicate PartAppended(raw: Bytes, r: Record, cut: nat)
      reads `file, `log, `missing, `stored
    {
      && Reads(codec, raw, stored) && codec.valid(r) && (missing == [] ==> Replay(stored + [r]).Some?)
      && cut <= |LineOf(codec, r)| && file == raw + LineOf(codec, r)[..cut]
    }

    /** What every request keeps, whatever its reply. */
    twostate predicate Serves(r: Record, reply: Reply)
      reads this
    {
      && initialized == old(initialized) && (old(poisoned) ==> poisoned)
      && Appends(codec, old(file), file, r)
      && (!reply.Done? ==> log == old(log) && jobs == old(jobs))
      && (reply.Killed? ==> AppendTorn())
      // memory misses a record exactly when the append threw after the record had arrived
      && missing == (if reply.Threw? && Arrived(codec, old(file), file, r) then old(missing) + [r] else old(missing))
      // only then can the file's replay reject a record that memory accepted, and only one for the same job
      && !r.Unrecognized?
      && (Arrived(codec, old(file), file, r) && old(Load(codec, file)).Some? && Load(codec, file).None? ==> JobOf(r) in old(Behind()))
    }

    method Disturb(chaos: bool) returns (io: Io)
      ensures !chaos ==> io.Works?
    {
      io := Works;
      if chaos {
        var dies, breaks: bool := *, *;
        if dies { io := Dies; } else if breaks { io := Breaks; }
      }
    }

    /** Compares the open files with the visible ones; a difference poisons the store, a failing `lstat` only throws. */
    method AssertOwnership(chaos: bool) returns (o: Ownership)
      modifies this`poisoned
      ensures poisoned == (old(poisoned) || o.Changed?)
      ensures !chaos ==> o.Same?
    {
      o := Same;
      if chaos {
        var changed, throws: bool := *, *;
        if throws { o := Throws; } else if changed { o := Changed; poisoned := true; }
      }
    }

    /** Appends bytes; when disturbed, only some of them may arrive. */
    method Write(bytes: Bytes, chaos: bool) returns (io: Io)
      modifies this`file
      ensures io.Works? ==> file == old(file) + bytes
      ensures !io.Works? ==> exists k :: 0 <= k <= |bytes| && file == old(file) + bytes[..k]
      ensures !chaos ==> io.Works?
    {
      io := Disturb(chaos);
      var k := |bytes|;
      if !io.Works? { k :| 0 <= k <= |bytes|; }
      file := file + bytes[..k];
      assert bytes[..|bytes|] == bytes;
    }

    /** Decides what a failed append left behind and completes it; anything but the start of the line is an error. */
    method ReconcileAmbiguousAppend(startSize: nat, line: Bytes, chaos: bool) returns (io: Io)
      requires startSize <= |file| && exists k :: 0 <= k <= |line| && file == file[..startSize] + line[..k]
      modifies this`file
      ensures startSize <= |file| && file[..startSize] == old(file[..startSize])
      ensures io.Works? ==> file == file[..startSize] + line
      ensures exists k :: 0 <= k <= |line| && file == file[..startSize] + line[..k]
      ensures !chaos ==> io.Works?
    {
      var base := file[..startSize];
      io := Disturb(chaos);
      if !io.Works? { return; }
      if |file| > startSize + |line| { return Breaks; }
      var appended := file[startSize..];
      if line[..|appended|] != appended { return Breaks; }
      assert file == base + appended;
      if |appended| != |line| {
        io := Disturb(chaos);
        if !io.Works? { return; }
        file := base;
        assert file == base + line[..0] && file[..startSize] == base;
        io := Disturb(chaos);
        if !io.Works? { return; }
        io := Write(line, chaos);
        assert file[..startSize] == base;
        if !io.Works? { return; }
        assert line[..|line|] == line;
      }
      io := Disturb(chaos);
    }

    /**
     Appends one record. In every outcome the file is the old file plus a part of the record's
     line; it is the whole line exactly when the record counts as stored, or when the last ownership
     check threw.
     */
    method AppendRecord(r: Record, chaos: bool) returns (reply: Reply)
      modifies this`file, this`poisoned, this`stored
      ensures Extends(codec, old(file), file, r)
      ensures old(poisoned) ==> poisoned
      ensures reply.Done? ==> poisoned == old(poisoned) && file == old(file) + LineOf(codec, r)
      ensures reply.Refused? ==> poisoned
      ensures reply.Threw? ==> poisoned == old(poisoned) && (file == old(file) || file == old(file) + LineOf(codec, r))
      ensures stored == if (reply.Done? || reply.Threw?) && file != old(file) then old(stored) + [r] else old(stored)
      ensures !chaos ==> reply.Done?
    {
      var before := file;
      var line := LineOf(codec, r);
      assert before == before + line[..0] && |line| > 0;
      var owned := AssertOwnership(chaos);
      if owned.Changed? { return Refused; }
      if owned.Throws? { return Threw; }
      var startSize := |file|;
      var io := Write(line, chaos);
      assert line[..|line|] == line && (before + line)[..startSize] == before;
      if io.Works? { io := Disturb(chaos); }
      if io.Dies? { return Killed; }
      if io.Breaks? {
        assert file[..startSize] == before;
        io := ReconcileAmbiguousAppend(startSize, line, chaos);
        if io.Dies? { return Killed; }
        if io.Breaks? { poisoned := true; return Refused; }
      }
      assert file == before + line && |file| > |before|;
      owned := AssertOwnership(chaos);
      if owned.Changed? { return Refused; }
      stored := stored + [r];
      reply := if owned.Throws? then Threw else Done;
    }

    /** Persists a record that applies to the jobs, and only then takes it into memory. */
    method Persist(r: Record, chaos: bool) returns (reply: Reply)
      requires CodecOk(codec) && Loaded() && Reads(codec, file, stored)
      requires codec.valid(r) && ApplyRecord(jobs, r).Some?
      modifies this
      ensures initialized == old(initialized) && (old(poisoned) ==> poisoned)
      ensures Appends(codec, old(file), file, r)
      ensures reply.Done? ==> log == old(log) + [r] && Some(jobs) == ApplyRecord(old(jobs), r)
      ensures !reply.Done? ==> log == old(log) && jobs == old(jobs)
      ensures reply.Refused? ==> poisoned
      ensures reply.Done? || reply.Threw? ==> poisoned == old(poisoned) && Reads(codec, file, stored)
      ensures reply.Refused? || reply.Killed? ==> AppendTorn()
      ensures !reply.Killed? ==> Loaded()
      ensures stored == if reply.Done? || (reply.Threw? && Arrived(codec, old(file), file, r)) then old(stored) + [r] else old(stored)
      ensures reply.Done? ==> Arrived(codec, old(file), file, r)
      ensures missing == if reply.Threw? && Arrived(codec, old(file), file, r) then old(missing) + [r] else old(missing)
      ensures !r.Unrecognized?
      ensures Arrived(codec, old(file), file, r) && old(Load(codec, file)).Some? && Load(codec, file).None? ==> JobOf(r) in JobsOf(old(missing))
      ensures old(missing) == [] ==> old(Load(codec, file)) == Some(old(log)) && Load(codec, file) in {Some(old(log)), Some(old(log) + [r])}
      ensures !chaos ==> reply.Done?
    {
      hide CodecOk, Load, Replay, Reads, ApplyRecord, SplitLines, DecodeAll, Merges, JobsOf;
      ghost var before := file;
      Recognized(jobs, r);
      if Replay(stored).Some? { RejectedAfter(log, missing, stored, r); }
      ReplayAppend(log, r);
      LoadWhole(codec, file, stored);
      NothingAppended(codec, file, r);
      reply := AppendRecord(r, chaos);
      AppendLoads(codec, before, file, old(stored), r);
      if reply.Refused? || reply.Killed? { TornByAppend(before, r); }
      if reply.Done? {
        MergesLeft(log, missing, old(stored), r);
        jobs := ApplyRecord(jobs, r).value;
        log := log + [r];
      } else if Arrived(codec, before, file, r) && reply.Threw? {
        MergesRight(log, missing, old(stored), r);
        missing := missing + [r];
      }
    }

    lemma TornByAppend(before: Bytes, r: Record)
      requires Reads(codec, before, stored) && codec.valid(r) && (missing == [] ==> Replay(stored + [r]).Some?)
      requires Extends(codec, before, file, r)
      ensures AppendTorn()
    {
      var cut :| 0 <= cut <= |LineOf(codec, r)| && file == before + LineOf(codec, r)[..cut];
      assert PartAppended(before, r, cut);
    }

    /** Creates a job: accepted exactly for a valid creation with a new id, on a writable store. */
    method CreateJob(creation: Creation, chaos: bool) returns (reply: Reply)
      requires Valid()
      modifies this
      ensures Serves(Created(creation), reply)
      ensures !reply.Killed? ==> Valid()
      ensures !old(initialized) || old(poisoned) ==> reply.Refused? && file == old(file) && poisoned == old(poisoned)
      ensures reply.Done? ==> log == old(log) + [Created(creation)] && creation.jobId !in old(jobs).byId
      ensures !chaos ==> (reply.Done? <==> old(initialized) && !old(poisoned) && codec.valid(Created(creation))
                                           && creation.jobId !in old(jobs).byId)
    {
      hide Replay, Reads, Load, Appends, Arrived;
      NothingAppended(codec, file, Created(creation));
      if !initialized || poisoned { return Refused; }
      if !codec.valid(Created(creation)) || creation.jobId in jobs.byId { return Refused; }
      reply := Persist(Created(creation), chaos);
    }

    /** The machine the events of a job lead to; None when one of them is rejected. */
    method ReplayEvents(job: Job) returns (machine: Option<Snapshot>)
      ensures machine == Run(Seed(job.creation), job.events)
    {
      var m := Seed(job.creation);
      assert job.events[..0] == [];
      for k := 0 to |job.events|
        invariant Run(Seed(job.creation), job.events[..k]) == Some(m)
      {
        assert job.events[..k + 1] == job.events[..k] + [job.events[k]];
        RunAppend(Seed(job.creation), job.events[..k], job.events[k]);
        var a := Judge(m, job.events[k]);
        if a.Rejected? {
          RunPrefixFails(Seed(job.creation), job.events, k + 1);
          return None;
        }
        m := a.snapshot;
      }
      assert job.events[..|job.events|] == job.events;
      machine := Some(m);
    }

    /** Appends an event the job's machine accepts; repeating the last event is acknowledged without a second record. */
    method AppendEvent(jobId: string, e: Event, chaos: bool) returns (reply: Reply)
      requires Valid()
      modifies this
      ensures Serves(Appended(e), reply)
      ensures !reply.Killed? ==> Valid()
      ensures !old(initialized) || old(poisoned) ==> reply.Refused? && file == old(file) && poisoned == old(poisoned)
      ensures reply.Done? ==> jobId in jobs.byId && e in jobs.byId[jobId].events
      ensures log == old(log) || (reply.Done? && log == old(log) + [Appended(e)])
      ensures !chaos ==> (reply.Done? <==> old(initialized) && !old(poisoned) && codec.valid(Appended(e)) && jobId in old(jobs).byId
                                           && (old(LastEvent(jobId)) == Some(e) || old(Acceptable(jobId, e))))
      ensures !chaos && reply.Done? && old(LastEvent(jobId)) == Some(e) ==> log == old(log) && file == old(file)
    {
      hide Replay, Reads, Load, Appends, Arrived, Run;
      NothingAppended(codec, file, Appended(e));
      if !initialized || poisoned { return Refused; }
      if jobId !in jobs.byId || !codec.valid(Appended(e)) { return Refused; }
      var job := jobs.byId[jobId];
      var owned := AssertOwnership(chaos);
      if owned.Changed? { return Refused; }
      if owned.Throws? { return Threw; }
      if job.events != [] && job.events[|job.events| - 1] == e { return Done; }
      if !FieldsMatch(job.creation, e) { return Refused; }
      ReplayedJobsOk(log);
      assert JobOk(jobId, job);
      var machine := ReplayEvents(job);
      var a := Judge(machine.value, e);
      if a.Rejected? { return Refused; }
      reply := Persist(Appended(e), chaos);
    }

    /** What the file loads as, if it loads: everything stored, and possibly the record of a torn append. It loads unless memory misses a record. */
    lemma StoredLoads()
      requires CodecOk(codec) && Loaded()
      ensures Load(codec, file).Some? ==> stored <= Load(codec, file).value && |Load(codec, file).value| <= |stored| + 1
      ensures missing == [] ==> Load(codec, file).Some?
      ensures missing == [] && !poisoned ==> Load(codec, file) == Some(log)
    {
      if Reads(codec, file, stored) {
        LoadWhole(codec, file, stored);
      } else {
        var raw, r, cut :| PartAppended(raw, r, cut);
        LoadTorn(codec, raw, stored, r, cut);
      }
    }

    lemma InMemoryLoads(r: Record)
      requires CodecOk(codec) && Loaded() && r in log && Load(codec, file).Some?
      ensures r in Load(codec, file).value
    {
      StoredLoads();
      MergesHold(log, missing, stored);
      var i :| 0 <= i < |stored| && stored[i] == r;
      assert Load(codec, file).value[i] == r;
    }

    /** One request: an acknowledged record is in the file, and loads as long as the file loads. */
    method Serve(c: Command) returns (reply: Reply)
      requires Valid() && c.IsRequest()
      modifies this
      ensures Serves(RecordOf(c), reply)
      ensures !reply.Killed? ==> Valid()
      ensures old(poisoned) || !old(initialized) ==> reply.Refused? && file == old(file)
      ensures reply.Done? && Load(codec, file).Some? ==> RecordOf(c) in Load(codec, file).value
    {
      hide Load, Replay, Reads, Appends, Arrived, ApplyRecord;
      if c.Create? {
        reply := CreateJob(c.creation, true);
      } else {
        reply := AppendEvent(c.jobId, c.event, true);
        if reply.Done? { EventsRecorded(log, c.jobId, c.event); }
      }
      if reply.Done? && Load(codec, file).Some? { InMemoryLoads(RecordOf(c)); }
    }

    function LastEvent(jobId: string): Option<Event>
      reads this
    {
      if jobId in jobs.byId && jobs.byId[jobId].events != []
      then Some(jobs.byId[jobId].events[|jobs.byId[jobId].events| - 1]) else None
    }

    predicate Acceptable(jobId: string, e: Event)
      reads this
    {
      jobId in jobs.byId && FieldsMatch(jobs.byId[jobId].creation, e) && Judge(jobs.byId[jobId].machine, e).Accepted?
    }

    /** Applies the complete lines in order; false on the first line that is empty, not a record, or does not apply. */
    method ApplyLines(lines: seq<Bytes>) returns (ok: bool)
      requires Lawful(codec)
      modifies this`jobs, this`log
      ensures ok ==> DecodeAll(codec, lines) == Some(log) && Replay(log) == Some(jobs)
      ensures !ok ==> DecodeAll(codec, lines).None? || Replay(DecodeAll(codec, lines).value).None?
    {
      jobs, log := NO_JOBS, [];
      assert lines[..0] == [];
      for k := 0 to |lines|
        invariant DecodeAll(codec, lines[..k]) == Some(log) && Replay(log) == Some(jobs)
      {
        assert lines[..k + 1] == lines[..k] + [lines[k]];
        DecodeAppend(codec, lines[..k], lines[k]);
        var value := if lines[k] == [] then None else codec.decode(lines[k]);
        if value.None? {
          DecodePrefix(codec, lines, k + 1);
          return false;
        }
        ReplayAppend(log, value.value);
        var applied := ApplyRecord(jobs, value.value);
        if applied.None? {
          DecodePrefix(codec, lines, k + 1);
          if DecodeAll(codec, lines).Some? { ReplayPrefixFails(DecodeAll(codec, lines).value, k + 1); }
          return false;
        }
        jobs, log := applied.value, log + [value.value];
      }
      assert lines[..|lines|] == lines;
      ok := true;
    }

    /**
     Loads the file and repairs its tail. What the file loads as never changes, even when the
     repair is cut short; undisturbed, loading fails exactly on a corrupt file.
     */
    method LoadHistory(chaos: bool) returns (reply: Reply)
      requires CodecOk(codec)
      modifies this`file, this`jobs, this`log, this`poisoned
      ensures old(poisoned) ==> poisoned
      ensures Load(codec, file) == Load(codec, old(file))
      ensures file in {old(file), Repaired(codec, old(file))}
      ensures reply.Done? ==> poisoned == old(poisoned) && Replay(log) == Some(jobs) && Load(codec, old(file)) == Some(log)
                              && file == Repaired(codec, old(file)) && Reads(codec, file, log)
      ensures !chaos ==> (reply.Done? <==> Load(codec, old(file)).Some?)
    {
      var raw := file;
      LoadRepaired(codec, raw);
      TailOfWhole(raw);
      var io := Disturb(chaos);
      if !io.Works? { return if io.Dies? then Killed else Threw; }
      var ok := ApplyLines(Lines(raw));
      if !ok {
        if CompleteRecords(codec, raw).Some? { ReplayPrefixOfTail(codec, raw); }
        return Refused;
      }
      if Tail(raw) == [] { return Done; }
      reply := ApplyTail(chaos);
    }

    /** The unterminated rest of the file: a record without its newline, or a torn line to cut off. */
    method ApplyTail(chaos: bool) returns (reply: Reply)
      requires CompleteRecords(codec, file) == Some(log) && Replay(log) == Some(jobs) && Tail(file) != []
      modifies this`file, this`jobs, this`log, this`poisoned
      ensures old(poisoned) ==> poisoned
      ensures file in {old(file), Repaired(codec, old(file))}
      ensures reply.Done? ==> poisoned == old(poisoned) && Replay(log) == Some(jobs) && Load(codec, old(file)) == Some(log)
                              && file == Repaired(codec, old(file)) && Reads(codec, file, log)
      ensures !chaos ==> (reply.Done? <==> Load(codec, old(file)).Some?)
    {
      if codec.decode(Tail(file)).None? { reply := CutTail(chaos); } else { reply := FinishTail(chaos); }
      if !reply.Done? { return; }
      var owned := AssertOwnership(chaos);
      return if owned.Same? then Done else Threw;
    }

    /** Cuts a torn line off. */
    method CutTail(chaos: bool) returns (reply: Reply)
      requires CompleteRecords(codec, file) == Some(log) && Tail(file) != [] && codec.decode(Tail(file)).None?
      modifies this`file
      ensures file in {old(file), Complete(old(file))}
      ensures reply.Done? ==> file == Complete(old(file)) && Reads(codec, file, log)
      ensures !chaos ==> reply.Done?
    {
      CompleteSplit(file);
      var io := Disturb(chaos);
      if !io.Works? { return if io.Dies? then Killed else Threw; }
      file := Complete(file);
      io := Disturb(chaos);
      return if io.Works? then Done else if io.Dies? then Killed else Threw;
    }

    /** Applies a last record that lacks only its newline, and completes it. */
    method FinishTail(chaos: bool) returns (reply: Reply)
      requires CompleteRecords(codec, file) == Some(log) && Replay(log) == Some(jobs)
      requires Tail(file) != [] && codec.decode(Tail(file)).Some?
      modifies this`file, this`jobs, this`log
      ensures file in {old(file), old(file) + [LF]}
      ensures reply.Done? ==> file == old(file) + [LF] && Replay(log) == Some(jobs) && Reads(codec, file, log)
                              && log == old(log) + [codec.decode(Tail(old(file))).value]
      ensures !chaos ==> (reply.Done? <==> Replay(old(log) + [codec.decode(Tail(old(file))).value]).Some?)
    {
      var last := codec.decode(Tail(file)).value;
      ReplayAppend(log, last);
      var applied := ApplyRecord(jobs, last);
      if applied.None? { return Refused; }
      SplitByte(file, LF);
      DecodeAppend(codec, Lines(file), Tail(file));
      jobs, log := applied.value, log + [last];
      var io := Disturb(chaos);
      if !io.Works? { return if io.Dies? then Killed else Threw; }
      file := file + [LF];
      io := Disturb(chaos);
      return if io.Works? then Done else if io.Dies? then Killed else Threw;
    }

    /** The file is just what is in memory. */
    ghost predicate InStep()
      reads `file, `jobs, `poisoned, `log, `missing, `stored
    {
      CodecOk(codec) && Loaded() && Reads(codec, file, stored) && missing == []
    }

    /**
     Fails every interrupted job with one more event. However it ends, the file loads as the
     jobs before with some interrupted ones failed once; undisturbed it succeeds exactly
     when no interrupted job has used up the sequence numbers and the clock works.
     */
    method RecoverInterruptedJobs(now: string, chaos: bool) returns (reply: Reply)
      requires InStep()
      modifies this
      ensures initialized == old(initialized) && (old(poisoned) ==> poisoned)
      ensures OnlyRecovered(codec, file, old(jobs)) && old(log) <= Load(codec, file).value
      ensures NoneActive(old(jobs)) ==> reply.Done? && file == old(file) && log == old(log)
      ensures reply.Done? ==> InStep() && poisoned == old(poisoned) && AllRecovered(old(jobs), jobs)
      ensures !chaos ==> (reply.Done? <==> Recoverable(old(jobs), now))
    {
      hide Recovering, PartlyRecovered, AllRecovered, JobsOk, Load, CodecOk, Recoverable, RecoverableAt, Replay, Reads, AppendTorn, NoneActive;
      var before := jobs;
      LoadWhole(codec, file, log);
      ReplayedJobsOk(log);
      RecoveringNone(before);
      RecoverableAll(before, now);
      if NoneActive(before) { NoneActiveAll(before); }
      for k := 0 to |before.order|
        invariant InStep() && initialized == old(initialized) && poisoned == old(poisoned)
        invariant Recovering(before, jobs, k) && Load(codec, file) == Some(log) && old(log) <= log
        invariant NoneActive(before) ==> file == old(file) && log == old(log)
        invariant !chaos ==> forall j :: 0 <= j < k ==> RecoverableAt(before, before.order[j], now)
      {
        reply := RecoverJob(before, k, now, chaos);
        if !reply.Done? { return; }
      }
      reply := Done;
      RecoveringPartly(before, jobs, |before.order|);
      RecoveringAll(before, jobs);
    }

    /** One job of the recovery loop. */
    method RecoverJob(before: Jobs, k: nat, now: string, chaos: bool) returns (reply: Reply)
      requires InStep()
      requires k < |before.order| && Recovering(before, jobs, k)
      requires Load(codec, file) == Some(log)
      modifies this
      ensures initialized == old(initialized) && (old(poisoned) ==> poisoned)
      ensures OnlyRecovered(codec, file, before) && old(log) <= Load(codec, file).value
      ensures !ActiveAt(before, before.order[k]) ==> reply.Done? && file == old(file) && log == old(log)
      ensures reply.Done? ==> Load(codec, file) == Some(log) && old(log) <= log
      ensures reply.Done? ==> InStep() && poisoned == old(poisoned) && Recovering(before, jobs, k + 1)
      ensures !chaos ==> (reply.Done? <==> RecoverableAt(before, before.order[k], now))
    {
      hide Recovering, PartlyRecovered, FailedFrom, JobsOk, Run, Judge, ApplyRecord, Load, CodecOk, Active, Replay, Reads, AppendTorn;
      ReplayedJobsOk(log);
      RecoveringAt(before, jobs, k);
      var id := before.order[k];
      var job := jobs.byId[id];
      if !Active(job.machine.status) {
        RecoveringSkip(before, jobs, k);
        return Done;
      }
      if job.machine.lastSequence >= MAX_SAFE_INTEGER || !Timestamp(now) { return Refused; }
      var e := Interruption(job, now);
      RecoveringStep(before, jobs, k, now);
      ReplayAppend(log, Appended(e));
      InterruptionValid(id, now);
      reply := Persist(Appended(e), chaos);
      if reply.Done? { LoadWhole(codec, file, log); }
    }

    /** The interruption event of a job in memory can be written. */
    lemma InterruptionValid(id: string, now: string)
      requires InStep() && id in jobs.byId && jobs.byId[id].machine.lastSequence < MAX_SAFE_INTEGER && Timestamp(now)
      ensures codec.valid(Appended(Interruption(jobs.byId[id], now)))
    {
      hide Uuid, Timestamp;
      DecodedUuids(codec, Lines(file));
      ReplayUuids(log);
      ReplayedJobsOk(log);
      assert JobOk(id, jobs.byId[id]);
      SequencesIncrease(Seed(jobs.byId[id].creation), jobs.byId[id].events);
    }

    /** What an opening does to the store. */
    twostate predicate Opened(now: string, chaos: bool, reply: Reply)
      reads `file, `jobs, `poisoned, `log, `missing, `stored
    {
      && OpenedFile(codec, old(file), file, now, chaos, reply)
      && (reply.Done? ==> InStep() && poisoned == old(poisoned) && NoneActive(jobs)
                          && AllRecovered(Replay(old(Load(codec, file)).value).value, jobs))
    }

    /** Memory, and what it misses, are as they were. */
    twostate predicate Unchanged()
      reads this
    {
      jobs == old(jobs) && log == old(log) && missing == old(missing) && stored == old(stored)
    }

    /** Loads the file, then fails the interrupted jobs. */
    method LoadAndRecover(now: string, chaos: bool) returns (reply: Reply)
      requires CodecOk(codec)
      modifies this
      ensures initialized == old(initialized) && (old(poisoned) ==> poisoned)
      ensures Opened(now, chaos, reply)
    {
      hide PartlyRecovered, AllRecovered, Load, Recoverable, Replay, Reads, AppendTorn, NoneActive, CodecOk, Repaired;
      reply := LoadHistory(chaos);
      if reply.Done? {
        stored, missing := log, [];
        MergesNothing(log, stored);
        ghost var before := jobs;
        LoadWhole(codec, file, log);
        reply := RecoverInterruptedJobs(now, chaos);
        if reply.Done? { RecoveredOnce(before, jobs); }
        if NoneActive(before) { LoadWhole(codec, file, log); }
      } else if Load(codec, file).Some? {
        NothingRecovered(Replay(Load(codec, file).value).value);
      }
    }

    /**
     Opens the store: load, then recover. A file that loads keeps loading through any failure, as
     the same jobs with some interrupted ones failed once; success leaves no active job. Being
     poisoned does not stop it, and is not undone by it.
     */
    method Initialize(now: string, chaos: bool) returns (reply: Reply)
      requires Valid()
      modifies this
      ensures Valid() && (old(poisoned) ==> poisoned) && (initialized <==> reply.Done?)
      ensures old(initialized) ==> file == old(file) && Unchanged() && poisoned == old(poisoned)
      ensures !old(initialized) ==> Opened(now, chaos, reply)
    {
      if initialized { return Done; }
      hide PartlyRecovered, AllRecovered, Load, Recoverable, Replay, Reads, AppendTorn, NoneActive, CodecOk, OpenedFile, Merges;
      reply := LoadAndRecover(now, chaos);
      initialized := reply.Done?;
      if !initialized { jobs, log := NO_JOBS, []; }
    }
  }

  lemma NothingRecovered(jobs: Jobs)
    ensures PartlyRecovered(jobs, jobs)
  {
  }

  // ---- Whole lives of a store ----

  /**
     Opening a poisoned store once more: it works like any opening, so it appends to the file exactly
     when a job was interrupted; the store stays poisoned, and every request is refused.
     */
  method ReopenPoisoned(store: Store, now: string, request: Command) returns (reopened: Reply, served: Reply)
    requires store.Valid() && store.poisoned && !store.initialized && request.IsRequest()
    modifies store
    ensures store.poisoned && served.Refused?
    ensures reopened.Done? <==>
              old(Load(store.codec, store.file)).Some? && Recoverable(Replay(old(Load(store.codec, store.file)).value).value, now)
    ensures reopened.Done? ==> (Load(store.codec, store.file) == old(Load(store.codec, store.file)) <==>
                                NoneActive(Replay(old(Load(store.codec, store.file)).value).value))
  {
    reopened := store.Initialize(now, false);
    if reopened.Done? { LoadWhole(store.codec, store.file, store.log); }
    served := store.Serve(request);
  }

  datatype Opening = Opening(now: string, restarted: bool)

  /**
     Any number of openings that may fail or be killed anywhere, of the same store object or of a
     new one, then an undisturbed one, then another: every interrupted job has failed exactly once,
     and the last opening adds nothing. The undisturbed opening works exactly when no
     interrupted job has used up the sequence numbers.
     */
  method Restart(codec: Codec<Record>, raw: Bytes, openings: seq<Opening>, last: Opening) returns (store: Store, again: Store)
    requires CodecOk(codec) && Load(codec, raw).Some? && Timestamp(last.now)
    ensures store.codec == codec && OnlyRecovered(codec, store.file, Replay(Load(codec, raw).value).value)
    ensures store.initialized <==> Recoverable(Replay(Load(codec, raw).value).value, last.now)
    ensures store.initialized ==> store.InStep() && AllRecovered(Replay(Load(codec, raw).value).value, store.jobs)
    ensures store.initialized ==> again.initialized && again.InStep() && again.jobs == store.jobs
  {
    hide Load, Replay, PartlyRecovered, AllRecovered, Recoverable, NoneActive, CodecOk, Timestamp;
    ghost var before := Replay(Load(codec, raw).value).value;
    store := new Store(codec, raw);
    NothingRecovered(before);
    for k := 0 to |openings|
      invariant fresh(store) && store.codec == codec && store.Valid() && OnlyRecovered(codec, store.file, before)
    {
      ghost var mid := Replay(Load(codec, store.file).value).value;
      if openings[k].restarted { store := new Store(codec, store.file); }
      var reply := store.Initialize(openings[k].now, true);
      if reply.Killed? { store := new Store(codec, store.file); }
      RecoveryComposes(before, mid, Replay(Load(codec, store.file).value).value);
    }
    ghost var mid := Replay(Load(codec, store.file).value).value;
    if last.restarted || store.initialized { store := new Store(codec, store.file); }
    var _ := store.Initialize(last.now, false);
    RecoveryComposes(before, mid, Replay(Load(codec, store.file).value).value);
    if store.initialized { RecoveryComposes(before, mid, store.jobs); }
    again := new Store(codec, store.file);
    if store.initialized {
      LoadWhole(codec, store.file, store.log);
      RecoveredOnce(before, store.jobs);
      var _ := again.Initialize(last.now, false);
    }
  }

  // ---- What a late throw can cost ----

  /** One command of a run, with the file before and after it. */
  datatype Step = Step(command: Command, before: Bytes, reply: Reply, after: Bytes)

  /** The request threw although its record had arrived: from here on, memory does not have it. */
  predicate ThrewLate(codec: Codec<Record>, s: Step) {
    s.command.IsRequest() && s.reply.Threw? && Arrived(codec, s.before, s.after, RecordOf(s.command))
  }

  /** The request appended a record that the replay of the file rejects. */
  ghost predicate Rejects(codec: Codec<Record>, s: Step) {
    && s.command.IsRequest() && Load(codec, s.before).Some? && Arrived(codec, s.before, s.after, RecordOf(s.command))
    && LoadNext(codec, s.before, RecordOf(s.command)).None?
  }

  /** Before step number `i`, some request for the job threw late in the same process. */
  ghost predicate BehindAt(codec: Codec<Record>, trace: seq<Step>, i: nat, job: string) {
    exists j :: 0 <= j < i && j < |trace| && ThrewLateFor(codec, trace[j], job) && forall k :: j < k < i && k < |trace| ==> !trace[k].command.Open?
  }

  predicate ThrewLateFor(codec: Codec<Record>, s: Step, job: string) {
    ThrewLate(codec, s) && JobOf(RecordOf(s.command)) == job
  }

  ghost predicate Chained(trace: seq<Step>, raw: Bytes) {
    && (trace != [] ==> trace[0].before == raw)
    && forall i, j :: 0 <= i < |trace| && j == i + 1 < |trace| ==> trace[i].after == trace[j].before
  }

  /** Everything the file held, and everything acknowledged, is still there. */
  ghost predicate NothingLost(codec: Codec<Record>, raw: Bytes, trace: seq<Step>, file: Bytes) {
    && Load(codec, raw).Some? && Load(codec, file).Some? && Load(codec, raw).value <= Load(codec, file).value
    && forall i :: 0 <= i < |trace| && trace[i].command.IsRequest() && trace[i].reply.Done? ==>
         RecordOf(trace[i].command) in Load(codec, file).value
  }

  /** What a run of commands leaves: nothing is lost, unless some request appended a record that the file rejects. */
  ghost predicate RunOk(codec: Codec<Record>, raw: Bytes, trace: seq<Step>, file: Bytes) {
    && Chained(trace, raw) && file == (if trace == [] then raw else trace[|trace| - 1].after)
    && (if exists i :: 0 <= i < |trace| && Rejects(codec, trace[i]) then Load(codec, file).None? else NothingLost(codec, raw, trace, file))
    && (forall i :: 0 <= i < |trace| && Rejects(codec, trace[i]) ==> BehindAt(codec, trace, i, JobOf(RecordOf(trace[i].command))))
  }

  /** What one command does to the file; only for a job that is behind can it append a record that the file rejects. */
  ghost predicate StepOk(codec: Codec<Record>, s: Step, behind: set<string>) {
    if s.command.IsRequest() then
      && Appends(codec, s.before, s.after, RecordOf(s.command)) && (Rejects(codec, s) ==> JobOf(RecordOf(s.command)) in behind)
      && (s.reply.Done? && Load(codec, s.after).Some? ==> RecordOf(s.command) in Load(codec, s.after).value)
    else
      && (Load(codec, s.before).Some? <==> Load(codec, s.after).Some?)
      && (Load(codec, s.before).Some? ==> Load(codec, s.before).value <= Load(codec, s.after).value)
  }

  lemma StillBehind(codec: Codec<Record>, trace: seq<Step>, s: Step, i: nat, job: string)
    requires i <= |trace| && BehindAt(codec, trace, i, job)
    ensures BehindAt(codec, trace + [s], i, job)
    ensures i == |trace| && !s.command.Open? ==> BehindAt(codec, trace + [s], i + 1, job)
  {
    var j :| 0 <= j < i && j < |trace| && ThrewLateFor(codec, trace[j], job) && forall k :: j < k < i && k < |trace| ==> !trace[k].command.Open?;
    assert (trace + [s])[j] == trace[j];
  }

  lemma NowBehind(codec: Codec<Record>, trace: seq<Step>, s: Step)
    requires ThrewLate(codec, s)
    ensures BehindAt(codec, trace + [s], |trace| + 1, JobOf(RecordOf(s.command)))
  {
    assert (trace + [s])[|trace|] == s;
    assert ThrewLateFor(codec, s, JobOf(RecordOf(s.command)));
  }

  lemma RunStarts(codec: Codec<Record>, raw: Bytes)
    requires Load(codec, raw).Some?
    ensures RunOk(codec, raw, [], raw)
  {
  }

  /** The jobs that are behind after one more step. */
  ghost predicate Spreads(codec: Codec<Record>, s: Step, behind: set<string>, after: set<string>) {
    forall job :: job in after ==> (job in behind && !s.command.Open?) || ThrewLateFor(codec, s, job)
  }

  lemma RunExtends(codec: Codec<Record>, raw: Bytes, trace: seq<Step>, s: Step, behind: set<string>, after: set<string>)
    requires RunOk(codec, raw, trace, s.before) && StepOk(codec, s, behind) && Spreads(codec, s, behind, after)
    requires forall job :: job in behind ==> BehindAt(codec, trace, |trace|, job)
    ensures RunOk(codec, raw, trace + [s], s.after)
    ensures forall job :: job in after ==> BehindAt(codec, trace + [s], |trace| + 1, job)
  {
    hide Load, Replay, Arrived, BehindAt, ApplyRecord, Extends, ThrewLate;
    var longer := trace + [s];
    assert forall i :: 0 <= i < |trace| ==> longer[i] == trace[i];
    assert longer[|trace|] == s;
    forall i | 0 <= i < |longer| && Rejects(codec, longer[i]) ensures BehindAt(codec, longer, i, JobOf(RecordOf(longer[i].command))) {
      StillBehind(codec, trace, s, i, JobOf(RecordOf(longer[i].command)));
    }
    LossExtends(codec, raw, trace, s, behind);
    forall job | job in after ensures BehindAt(codec, longer, |trace| + 1, job) {
      if job in behind && !s.command.Open? { StillBehind(codec, trace, s, |trace|, job); } else { NowBehind(codec, trace, s); }
    }
  }

  /** The file stops loading at the step that is rejected, and never before. */
  lemma LossExtends(codec: Codec<Record>, raw: Bytes, trace: seq<Step>, s: Step, behind: set<string>)
    requires StepOk(codec, s, behind)
    requires if exists i :: 0 <= i < |trace| && Rejects(codec, trace[i]) then Load(codec, s.before).None?
             else NothingLost(codec, raw, trace, s.before)
    ensures var longer := trace + [s];
            if exists i :: 0 <= i < |longer| && Rejects(codec, longer[i]) then Load(codec, s.after).None?
            else NothingLost(codec, raw, longer, s.after)
  {
    hide Load, Replay, Arrived, ApplyRecord, Extends;
    var longer := trace + [s];
    assert forall i :: 0 <= i < |trace| ==> longer[i] == trace[i];
    assert longer[|trace|] == s;
    if i :| 0 <= i < |trace| && Rejects(codec, trace[i]) {
      assert Rejects(codec, longer[i]);
    }
  }

  lemma NoJobsMissing()
    ensures JobsOf([]) == {}
  {
  }

  /** One command: to a store in a new process, to a live store, or to none. */
  method Execute(store: Store, alive: bool, c: Command) returns (current: Store, reply: Reply)
    requires CodecOk(store.codec) && (alive ==> store.Valid())
    modifies store
    ensures (current == store || fresh(current)) && current.codec == store.codec && (!reply.Killed? ==> current.Valid())
    ensures var s, behind := Step(c, old(store.file), reply, current.file), if alive then old(store.Behind()) else {};
            StepOk(store.codec, s, behind) && (!reply.Killed? ==> Spreads(store.codec, s, behind, current.Behind()))
  {
    hide Load, Replay, Arrived, ApplyRecord, Extends, CodecOk, Reads, PartlyRecovered, AllRecovered, NoneActive, Recoverable, JobsOf;
    NoJobsMissing();
    current, reply := store, Killed;
    if c.IsRequest() {
      NothingAppended(store.codec, store.file, RecordOf(c));
      JobsOfAppend(store.missing, RecordOf(c));
      if alive { reply := store.Serve(c); }
      return;
    }
    if c.Open? {
      current := new Store(store.codec, store.file);
    } else if !alive {
      return;
    }
    reply := current.Initialize(c.now, true);
  }

  /**
     Any sequence of openings, creations and events with any disturbance. Nothing that was in the
     file, and nothing that was acknowledged, is ever lost or reordered, unless some request appends a
     record that the replay of the file rejects; then the file no longer loads. That happens only to a
     record for a job that has another record in the file but not in memory, because an earlier request for it in
     the same process threw in its last ownership check.
     */
  method Service(codec: Codec<Record>, raw: Bytes, commands: seq<Command>) returns (store: Store, ghost trace: seq<Step>)
    requires CodecOk(codec) && Load(codec, raw).Some?
    ensures store.codec == codec && RunOk(codec, raw, trace, store.file)
    ensures |trace| == |commands| && forall i :: 0 <= i < |trace| ==> trace[i].command == commands[i]
  {
    hide CodecOk, Load, RunOk, StepOk, BehindAt, ThrewLate, JobsOf;
    NoJobsMissing();
    trace := [];
    store := new Store(codec, raw);
    RunStarts(codec, raw);
    var alive := true;
    for k := 0 to |commands|
      invariant fresh(store) && store.codec == codec && (alive ==> store.Valid())
      invariant RunOk(codec, raw, trace, store.file)
      invariant |trace| == k && forall i :: 0 <= i < k ==> trace[i].command == commands[i]
      invariant alive ==> forall job :: job in store.Behind() ==> BehindAt(codec, trace, k, job)
    {
      ghost var before, behind := store.file, if alive then store.Behind() else {};
      var reply;
      store, reply := Execute(store, alive, commands[k]);
      alive := !reply.Killed?;
      ghost var s := Step(commands[k], before, reply, store.file);
      RunExtends(codec, raw, trace, s, behind, if alive then store.Behind() else {});
      trace := trace + [s];
    }
  }

  /**
     After a late throw the record is in the file but not in memory. The next record leaves a
     file that loads exactly when it applies after the one that memory misses.
     */
  lemma NextAfterThrow(codec: Codec<Record>, raw: Bytes, records: seq<Record>, r: Record, next: Record)
    requires CodecOk(codec) && codec.valid(r) && codec.valid(next) && Reads(codec, raw, records + [r]) && Replay(records + [r]).Some?
    ensures Load(codec, raw + LineOf(codec, next)) ==
              if ApplyRecord(Replay(records + [r]).value, next).Some? then Some(records + [r] + [next]) else None
  {
    ReadsAppend(codec, raw, records + [r], next);
    LoadWhole(codec, raw + LineOf(codec, next), records + [r] + [next]);
    ReplayAppend(records + [r], next);
  }

  /** No history holds the same record twice in a row. */
  lemma RepeatedRecordRejected(records: seq<Record>, r: Record)
    ensures Replay(records + [r] + [r]).None?
  {
    ReplayAppend(records, r);
    ReplayAppend(records + [r], r);
  }

  /** A retry after a late throw: appending the same record again leaves a file that no longer loads. */
  lemma RetryAfterThrowCorrupts(codec: Codec<Record>, raw: Bytes, records: seq<Record>, r: Record)
    requires CodecOk(codec) && codec.valid(r) && Reads(codec, raw, records + [r])
    ensures Load(codec, raw + LineOf(codec, r)).None?
  {
    ReadsAppend(codec, raw, records + [r], r);
    LoadWhole(codec, raw + LineOf(codec, r), records + [r] + [r]);
    RepeatedRecordRejected(records, r);
  }

  /** Every event of a loaded job is the event of one of the records. */
  lemma {:induction false} EventsRecorded(records: seq<Record>, jobId: string, e: Event)
    requires Replay(records).Some? && jobId in Replay(records).value.byId && e in Replay(records).value.byId[jobId].events
    ensures Appended(e) in records
  {
    var n := |records| - 1;
    var before := Replay(records[..n]).value;
    if records[n] != Appended(e) {
      assert jobId in before.byId && e in before.byId[jobId].events;
      EventsRecorded(records[..n], jobId, e);
    }
  }

  ghost predicate RecoveredAt(before: Jobs, after: Jobs, id: string) {
    id in before.byId && id in after.byId ==>
      if Active(before.byId[id].machine.status) then FailedFrom(before.byId[id], after.byId[id])
      else after.byId[id] == before.byId[id]
  }

  /** The first `k` jobs are dealt with, the others untouched. */
  ghost predicate Recovering(before: Jobs, after: Jobs, k: int) {
    && PartlyRecovered(before, after) && JobsOk(before)
    && (forall j :: 0 <= j < k && j < |before.order| ==> RecoveredAt(before, after, before.order[j]))
    && (forall j :: k <= j < |before.order| && 0 <= j ==> after.byId[before.order[j]] == before.byId[before.order[j]])
  }

  lemma RecoverableAll(jobs: Jobs, now: string)
    requires JobsOk(jobs)
    ensures Recoverable(jobs, now) <==> forall j :: 0 <= j < |jobs.order| ==> RecoverableAt(jobs, jobs.order[j], now)
  {
    hide Timestamp;
    if forall j :: 0 <= j < |jobs.order| ==> RecoverableAt(jobs, jobs.order[j], now) {
      forall id | id in jobs.byId ensures RecoverableAt(jobs, id, now) {
        var j :| 0 <= j < |jobs.order| && jobs.order[j] == id;
      }
    }
  }

  lemma RecoveringNone(jobs: Jobs)
    requires JobsOk(jobs)
    ensures Recovering(jobs, jobs, 0) && PartlyRecovered(jobs, jobs)
  {
  }

  lemma RecoveringPartly(before: Jobs, after: Jobs, k: nat)
    requires Recovering(before, after, k)
    ensures PartlyRecovered(before, after)
  {
  }

  lemma RecoveringAll(before: Jobs, after: Jobs)
    requires Recovering(before, after, |before.order|)
    ensures AllRecovered(before, after)
  {
    forall id | id in before.byId ensures RecoveredAt(before, after, id) {
      var j :| 0 <= j < |before.order| && before.order[j] == id;
    }
  }

  lemma RecoveringAt(before: Jobs, after: Jobs, k: nat)
    requires Recovering(before, after, k) && k < |before.order| && JobsOk(after)
    ensures PartlyRecovered(before, after) && before.order[k] in before.byId && before.order[k] in after.byId
    ensures after.byId[before.order[k]] == before.byId[before.order[k]]
  {
  }

  lemma RecoveringSkip(before: Jobs, after: Jobs, k: nat)
    requires Recovering(before, after, k) && k < |before.order| && before.order[k] in after.byId
    requires !Active(after.byId[before.order[k]].machine.status)
    ensures Recovering(before, after, k + 1)
  {
  }

  lemma RecoveringStep(before: Jobs, mid: Jobs, k: nat, now: string)
    requires k < |before.order| && Recovering(before, mid, k) && JobsOk(mid)
    requires var job := mid.byId[before.order[k]];
             Active(job.machine.status) && job.machine.lastSequence < MAX_SAFE_INTEGER
    ensures var applied := ApplyRecord(mid, Appended(Interruption(mid.byId[before.order[k]], now)));
            applied.Some? && Recovering(before, applied.value, k + 1) && PartlyRecovered(before, applied.value)
  {
    hide Judge, Run, Replay, Interruption, FailedFrom, JobOk;
    RecoverOne(before, mid, before.order[k], now);
  }

  predicate ActiveAt(before: Jobs, id: string) {
    id in before.byId && Active(before.byId[id].machine.status)
  }

  predicate RecoverableAt(before: Jobs, id: string, now: string) {
    ActiveAt(before, id) ==> before.byId[id].machine.lastSequence < MAX_SAFE_INTEGER && Timestamp(now)
  }

  lemma NoneActiveAll(jobs: Jobs)
    requires JobsOk(jobs) && NoneActive(jobs)
    ensures forall j :: 0 <= j < |jobs.order| ==> !ActiveAt(jobs, jobs.order[j])
  {
  }

  /** Persisting one interruption event fails exactly that job. */
  lemma RecoverOne(before: Jobs, mid: Jobs, id: string, now: string)
    requires JobsOk(mid) && PartlyRecovered(before, mid) && id in mid.byId && mid.byId[id] == before.byId[id]
    requires Active(mid.byId[id].machine.status) && mid.byId[id].machine.lastSequence < MAX_SAFE_INTEGER
    ensures var applied := ApplyRecord(mid, Appended(Interruption(mid.byId[id], now)));
            && applied.Some? && applied.value.order == mid.order
            && applied.value.byId == mid.byId[id := Recovered(mid.byId[id], now)]
            && PartlyRecovered(before, applied.value) && FailedFrom(before.byId[id], applied.value.byId[id])
  {
    hide Run, Replay;
    assert JobOk(id, mid.byId[id]);
    InterruptionAccepted(id, mid.byId[id], now);
  }

  lemma {:induction false} DecodePrefix(codec: Codec<Record>, lines: seq<Bytes>, k: nat)
    requires k <= |lines|
    ensures DecodeAll(codec, lines).Some? ==>
              DecodeAll(codec, lines[..k]).Some? && |DecodeAll(codec, lines).value| == |lines|
              && DecodeAll(codec, lines[..k]).value == DecodeAll(codec, lines).value[..k]
  {
    if k < |lines| {
      var n := |lines| - 1;
      DecodePrefix(codec, lines[..n], k);
      assert lines[..n][..k] == lines[..k];
      if DecodeAll(codec, lines).Some? {
        assert DecodeAll(codec, lines).value[..k] == DecodeAll(codec, lines[..n]).value[..k];
      }
    } else {
      assert lines[..k] == lines;
      if lines != [] { DecodePrefix(codec, lines[..|lines| - 1], |lines| - 1); }
      if DecodeAll(codec, lines).Some? { assert DecodeAll(codec, lines).value[..k] == DecodeAll(codec, lines).value; }
    }
  }

  lemma ReplayPrefixFails(records: seq<Record>, k: nat)
    requires k <= |records| && Replay(records[..k]).None?
    ensures Replay(records).None?
  {
    if Replay(records).Some? { ReplayPrefix(records, k); }
  }

  /** When the complete lines do not replay, the file does not load. */
  lemma ReplayPrefixOfTail(codec: Codec<Record>, raw: Bytes)
    requires CompleteRecords(codec, raw).Some?
    ensures Replay(CompleteRecords(codec, raw).value).None? ==> Load(codec, raw).None?
  {
    var records := CompleteRecords(codec, raw).value;
    if Load(codec, raw).Some? {
      ReplayPrefix(Load(codec, raw).value, |records|);
      assert Load(codec, raw).value[..|records|] == records;
    }
  }
}
