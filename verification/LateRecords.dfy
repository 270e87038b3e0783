/**
 Records that are in the history file but not in the memory of the store that wrote them: an
 append threw after the record had arrived. What the file holds is then a merge of the records in
 memory and the missing ones.
 */
module LateRecords {
  import opened JavaScript
  import opened LineLog
  import opened JobStateMachine
  import opened JobHistory

  /** Both sequences in their order, together all of the third. */
  ghost predicate Merges(a: seq<Record>, b: seq<Record>, s: seq<Record>)
    decreases |s|
  {
    if s == [] then a == [] && b == []
    else
      var n := |s| - 1;
      || (a != [] && a[|a| - 1] == s[n] && Merges(a[..|a| - 1], b, s[..n]))
      || (b != [] && b[|b| - 1] == s[n] && Merges(a, b[..|b| - 1], s[..n]))
  }

  lemma MergesLeft(a: seq<Record>, b: seq<Record>, s: seq<Record>, r: Record)
    requires Merges(a, b, s)
    ensures Merges(a + [r], b, s + [r])
  {
    assert (a + [r])[..|a|] == a && (s + [r])[..|s|] == s;
  }

  lemma MergesRight(a: seq<Record>, b: seq<Record>, s: seq<Record>, r: Record)
    requires Merges(a, b, s)
    ensures Merges(a, b + [r], s + [r])
  {
    assert (b + [r])[..|b|] == b && (s + [r])[..|s|] == s;
  }

  lemma {:induction false} MergesNothing(a: seq<Record>, s: seq<Record>)
    ensures Merges(a, [], s) <==> a == s
  {
    if s != [] && a != [] {
      MergesNothing(a[..|a| - 1], s[..|s| - 1]);
      assert a == a[..|a| - 1] + [a[|a| - 1]] && s == s[..|s| - 1] + [s[|s| - 1]];
    }
  }

  lemma {:induction false} MergesHold(a: seq<Record>, b: seq<Record>, s: seq<Record>)
    requires Merges(a, b, s)
    ensures forall r :: r in s <==> r in a || r in b
  {
    if s != [] {
      var n := |s| - 1;
      assert s == s[..n] + [s[n]];
      if a != [] && a[|a| - 1] == s[n] && Merges(a[..|a| - 1], b, s[..n]) {
        MergesHold(a[..|a| - 1], b, s[..n]);
        assert a == a[..|a| - 1] + [s[n]];
      } else {
        MergesHold(a, b[..|b| - 1], s[..n]);
        assert b == b[..|b| - 1] + [s[n]];
      }
    }
  }

  function JobOf(r: Record): string
    requires !r.Unrecognized?
  {
    if r.Created? then r.creation.jobId else r.event.jobId
  }

  function JobsOf(records: seq<Record>): set<string> {
    set r | r in records && !r.Unrecognized? :: JobOf(r)
  }

  lemma JobsOfAppend(records: seq<Record>, r: Record)
    requires !r.Unrecognized?
    ensures JobsOf(records + [r]) == JobsOf(records) + {JobOf(r)}
  {
  }

  /** The file's jobs are those in memory, except that the given ones have more records. */
  ghost predicate Ahead(memory: Jobs, file: Jobs, ids: set<string>) {
    && memory.byId.Keys <= file.byId.Keys && ids <= file.byId.Keys
    && (forall id :: id in memory.byId ==> file.byId[id].creation == memory.byId[id].creation)
    && (forall id :: id in file.byId && id !in ids ==> id in memory.byId && file.byId[id] == memory.byId[id])
  }

  lemma AheadBoth(memory: Jobs, file: Jobs, ids: set<string>, r: Record)
    requires Ahead(memory, file, ids) && ApplyRecord(memory, r).Some? && ApplyRecord(file, r).Some?
    ensures Ahead(ApplyRecord(memory, r).value, ApplyRecord(file, r).value, ids)
  {
    hide FieldsMatch, Judge;
  }

  lemma AheadMore(memory: Jobs, file: Jobs, ids: set<string>, r: Record)
    requires Ahead(memory, file, ids) && ApplyRecord(file, r).Some?
    ensures Ahead(memory, ApplyRecord(file, r).value, ids + {JobOf(r)})
  {
    hide FieldsMatch, Judge;
  }

  lemma {:induction false} MergedAhead(log: seq<Record>, missing: seq<Record>, stored: seq<Record>)
    requires Merges(log, missing, stored) && Replay(log).Some? && Replay(stored).Some?
    ensures Ahead(Replay(log).value, Replay(stored).value, JobsOf(missing))
  {
    hide ApplyRecord;
    if stored != [] {
      var n := |stored| - 1;
      var r, front := stored[n], Replay(stored[..n]).value;
      if log != [] && log[|log| - 1] == r && Merges(log[..|log| - 1], missing, stored[..n]) {
        MergedAhead(log[..|log| - 1], missing, stored[..n]);
        AheadBoth(Replay(log[..|log| - 1]).value, front, JobsOf(missing), r);
      } else {
        var m := |missing| - 1;
        MergedAhead(log, missing[..m], stored[..n]);
        assert missing == missing[..m] + [r];
        Recognized(front, r);
        JobsOfAppend(missing[..m], r);
        AheadMore(Replay(log).value, front, JobsOf(missing[..m]), r);
      }
    }
  }

  lemma Recognized(jobs: Jobs, r: Record)
    requires ApplyRecord(jobs, r).Some?
    ensures !r.Unrecognized?
  {
  }

  /**
     Which records memory accepts although the file rejects them: those for a job that misses a
     record, unless it is an event that the job's machine takes after all the events in the file.
     */
  lemma RejectedAfter(log: seq<Record>, missing: seq<Record>, stored: seq<Record>, next: Record)
    requires Merges(log, missing, stored) && Replay(log).Some? && Replay(stored).Some?
    requires ApplyRecord(Replay(log).value, next).Some?
    ensures var file := Replay(stored).value;
            ApplyRecord(file, next).None? <==>
              && JobOf(next) in JobsOf(missing) && JobOf(next) in file.byId
              && (next.Created? || Judge(file.byId[JobOf(next)].machine, next.event).Rejected?)
  {
    hide FieldsMatch, Judge;
    MergedAhead(log, missing, stored);
  }
}
