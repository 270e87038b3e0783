/**
 The weighted work pool: workers share one index counter, one weight gate and one abort signal,
 and run in any interleaving between awaits. Each step of a worker is the code from one await
 to the next; sampling the processor load, the task and the completion callback are awaited
 calls that may settle either way at any time.
 */
module WorkPool {
  import opened JavaScript
  import opened LineLog

  datatype Config<!V, !R> = Config(values: seq<V>, task: (V, nat) -> R, weight: (V, nat) -> int, maximum: Option<nat>)

  /** Where a worker is waiting. */
  datatype Pc =
    | Loop                      // about to take an index
    | Sampling(index: nat)      // awaits processor capacity
    | Parked(index: nat)        // awaits a wake-up by the weight gate
    | Woken(index: nat)         // woken, about to check the gate again
    | Running(index: nat)       // awaits its task, its weight is taken
    | Completing(index: nat)    // awaits the completion callback
    | Rejected                  // was parked when the signal aborted
    | Done

  datatype State<R> = State(activeWeight: int, waiters: set<nat>, nextIndex: nat, results: seq<Option<R>>,
                            failed: bool, aborted: bool, workers: seq<Pc>, calls: seq<nat>)

  // ---- The steps ----

  /** The weight a work item takes; nothing without a gate. */
  function WeightOf(c: Config, i: nat): int
    requires i < |c.values|
  {
    if c.maximum.None? then 0 else c.weight(c.values[i], i)
  }

  predicate ValidWeight(c: Config, i: nat)
    requires i < |c.values|
  {
    c.maximum.Some? ==> 0 <= WeightOf(c, i) <= MAX_SAFE_INTEGER && WeightOf(c, i) <= c.maximum.value
  }

  function Goto<R>(s: State<R>, w: nat, pc: Pc): State<R>
    requires w < |s.workers|
  {
    s.(workers := s.workers[w := pc])
  }

  /** Every waiter is woken. */
  function WakeAll<R>(s: State<R>): (r: State<R>)
    ensures |r.workers| == |s.workers|
    ensures forall k :: 0 <= k < |s.workers| ==>
              r.workers[k] == if s.workers[k].Parked? && k in s.waiters then Woken(s.workers[k].index) else s.workers[k]
  {
    s.(waiters := {},
       workers := seq(|s.workers|, k requires 0 <= k < |s.workers| =>
                    if s.workers[k].Parked? && k in s.waiters then Woken(s.workers[k].index) else s.workers[k]))
  }

  /** The signal aborts: every waiter's promise is rejected. */
  function Abort<R>(s: State<R>): (r: State<R>)
    ensures |r.workers| == |s.workers|
    ensures forall k :: 0 <= k < |s.workers| ==>
              r.workers[k] == if !s.aborted && s.workers[k].Parked? && k in s.waiters then Rejected else s.workers[k]
  {
    if s.aborted then s
    else s.(aborted := true, waiters := {},
            workers := seq(|s.workers|, k requires 0 <= k < |s.workers| =>
                         if s.workers[k].Parked? && k in s.waiters then Rejected else s.workers[k]))
  }

  /** The worker's catch block. */
  function Fail<R>(s: State<R>, w: nat): State<R>
    requires w < |s.workers|
  {
    Abort(Goto(s, w, Done).(failed := true))
  }

  /** The gate: park while the weight does not fit, otherwise take it and start the task. */
  function Acquire<V, R>(c: Config<V, R>, s: State<R>, w: nat, i: nat): State<R>
    requires w < |s.workers| && i < |c.values|
  {
    if s.aborted then Fail(s, w)
    else if c.maximum.Some? && s.activeWeight + WeightOf(c, i) > c.maximum.value then
      Goto(s, w, Parked(i)).(waiters := s.waiters + {w})
    else Goto(s, w, Running(i)).(activeWeight := s.activeWeight + WeightOf(c, i), calls := s.calls + [i])
  }

  /** One step of a worker; `ok` says how the awaited call settled. */
  function Step<V, R>(c: Config<V, R>, s: State<R>, w: nat, ok: bool): (r: State<R>)
    requires w < |s.workers| && |s.results| == |c.values|
    ensures |r.results| == |s.results| && |r.workers| == |s.workers|
  {
    match s.workers[w]
    case Loop =>
      if s.aborted || s.nextIndex >= |c.values| then Goto(s, w, Done)
      else Goto(s, w, Sampling(s.nextIndex)).(nextIndex := s.nextIndex + 1)
    case Sampling(i) =>
      if !ok || s.aborted || i >= |c.values| || !ValidWeight(c, i) then Fail(s, w) else Acquire(c, s, w, i)
    case Woken(i) =>
      if i >= |c.values| then s else Acquire(c, s, w, i)
    case Running(i) =>
      if i >= |c.values| then s
      else
        var released := WakeAll(s.(activeWeight := s.activeWeight - WeightOf(c, i)));
        if ok then Goto(released, w, Completing(i)).(results := s.results[i := Some(c.task(c.values[i], i))])
        else Fail(released, w)
    case Completing(i) => if ok then Goto(s, w, Loop) else Fail(s, w)
    case Rejected => Fail(s, w)
    case Parked(_) => s
    case Done => s
  }

  datatype Choice = Run(worker: nat, ok: bool) | ExternalAbort

  function Next<V, R>(c: Config<V, R>, s: State<R>, choice: Choice): (r: State<R>)
    requires |s.results| == |c.values|
    ensures |r.results| == |s.results| && |r.workers| == |s.workers|
  {
    if choice.ExternalAbort? then Abort(s)
    else if choice.worker < |s.workers| then Step(c, s, choice.worker, choice.ok) else s
  }

  function Initial<V, R>(c: Config<V, R>, workers: nat): State<R> {
    State(0, {}, 0, seq(|c.values|, _ => None), false, false, seq(workers, _ => Loop), [])
  }

  function Execute<V, R>(c: Config<V, R>, workers: nat, schedule: seq<Choice>): (s: State<R>)
    ensures |s.results| == |c.values| && |s.workers| == workers
  {
    if schedule == [] then Initial(c, workers)
    else Next(c, Execute(c, workers, schedule[..|schedule| - 1]), schedule[|schedule| - 1])
  }

  // ---- What every step keeps ----

  /** The weight of the running tasks. */
  function TakenBy<V, R>(c: Config<V, R>, pc: Pc): int {
    if pc.Running? && pc.index < |c.values| then WeightOf(c, pc.index) else 0
  }

  function Taken<V, R>(c: Config<V, R>, workers: seq<Pc>): int {
    if workers == [] then 0 else Taken(c, workers[..|workers| - 1]) + TakenBy(c, workers[|workers| - 1])
  }

  predicate Holds(pc: Pc, i: int) {
    (pc.Sampling? || pc.Parked? || pc.Woken? || pc.Running? || pc.Completing?) && pc.index == i
  }

  /** The index is held by a worker that has not started its task. */
  predicate Waits(pc: Pc, i: int) {
    (pc.Sampling? || pc.Parked? || pc.Woken?) && pc.index == i
  }

  ghost predicate GateOk<V, R>(c: Config<V, R>, s: State<R>) {
    && s.activeWeight == Taken(c, s.workers)
    && (c.maximum.Some? ==> s.activeWeight <= c.maximum.value)
    && (forall w :: w in s.waiters <==> 0 <= w < |s.workers| && s.workers[w].Parked?)
    && (s.aborted ==> s.waiters == {})
    && (forall w :: 0 <= w < |s.workers| ==> WorkerOk(c, s, s.workers[w]))
  }

  ghost predicate WorkerOk<V, R>(c: Config<V, R>, s: State<R>, pc: Pc) {
    match pc
    case Sampling(i) => i < |c.values|
    case Parked(i) => i < |c.values| && ValidWeight(c, i) && c.maximum.Some? && s.activeWeight + WeightOf(c, i) > c.maximum.value
    case Woken(i) => i < |c.values| && ValidWeight(c, i)
    case Running(i) => i < |c.values| && ValidWeight(c, i)
    case Completing(i) => i < |c.values| == |s.results| && s.results[i].Some?
    case Rejected => s.aborted
    case Done => s.aborted || s.nextIndex == |c.values|
    case Loop => true
  }

  /** Every index is with exactly one worker, or done with, or still to come. */
  ghost predicate IndicesOk<V, R>(c: Config<V, R>, s: State<R>) {
    && s.nextIndex <= |c.values| == |s.results| && (s.failed ==> s.aborted)
    && (forall v, w, i :: 0 <= v < w < |s.workers| && Holds(s.workers[v], i) ==> !Holds(s.workers[w], i))
    && (forall w, i :: 0 <= w < |s.workers| && Holds(s.workers[w], i) ==> i < s.nextIndex)
    && (forall i :: 0 <= i < |s.results| && s.results[i].Some? ==> s.results[i].value == c.task(c.values[i], i) && i in s.calls)
    && (forall i :: i in s.calls ==> i < s.nextIndex)
    && (forall j, k :: 0 <= j < k < |s.calls| ==> s.calls[j] != s.calls[k])
    && (forall w, i :: 0 <= w < |s.workers| && Waits(s.workers[w], i) ==> i !in s.calls)
    && (forall w :: 0 <= w < |s.workers| && s.workers[w].Running? ==> s.workers[w].index in s.calls)
    && (!s.aborted ==> forall i :: 0 <= i < s.nextIndex ==> s.results[i].Some? || exists w :: 0 <= w < |s.workers| && Holds(s.workers[w], i))
  }

  lemma {:induction false} TakenUpdate<V, R>(c: Config<V, R>, workers: seq<Pc>, w: nat, pc: Pc)
    requires w < |workers|
    ensures Taken(c, workers[w := pc]) == Taken(c, workers) - TakenBy(c, workers[w]) + TakenBy(c, pc)
  {
    var n := |workers| - 1;
    if w < n {
      TakenUpdate(c, workers[..n], w, pc);
      assert workers[w := pc][..n] == workers[..n][w := pc];
    } else {
      assert workers[w := pc][..n] == workers[..n];
    }
  }

  lemma {:induction false} TakenSame<V, R>(c: Config<V, R>, a: seq<Pc>, b: seq<Pc>)
    requires |a| == |b| && forall k :: 0 <= k < |a| ==> TakenBy(c, a[k]) == TakenBy(c, b[k])
    ensures Taken(c, a) == Taken(c, b)
  {
    if a != [] { TakenSame(c, a[..|a| - 1], b[..|b| - 1]); }
  }

  /** The weight taken is never negative, and only running tasks take any. */
  lemma {:induction false} TakenBounds<V, R>(c: Config<V, R>, s: State<R>, n: nat)
    requires n <= |s.workers| && forall w :: 0 <= w < |s.workers| ==> WorkerOk(c, s, s.workers[w])
    ensures Taken(c, s.workers[..n]) >= 0
    ensures Taken(c, s.workers[..n]) > 0 ==> exists w :: 0 <= w < n && s.workers[w].Running? && TakenBy(c, s.workers[w]) > 0
  {
    if n > 0 {
      TakenBounds(c, s, n - 1);
      assert s.workers[..n][..n - 1] == s.workers[..n - 1];
    }
  }

  // ---- One step keeps the gate ----

  lemma AbortGate<V, R>(c: Config<V, R>, s: State<R>)
    requires GateOk(c, s)
    ensures GateOk(c, Abort(s))
  {
    TakenSame(c, Abort(s).workers, s.workers);
  }

  lemma FailGate<V, R>(c: Config<V, R>, s: State<R>, w: nat)
    requires GateOk(c, s) && w < |s.workers| && !s.workers[w].Running? && !s.workers[w].Parked?
    ensures GateOk(c, Fail(s, w))
  {
    TakenUpdate(c, s.workers, w, Done);
    TakenSame(c, Fail(s, w).workers, s.workers[w := Done]);
  }

  lemma AcquireGate<V, R>(c: Config<V, R>, s: State<R>, w: nat, i: nat)
    requires GateOk(c, s) && w < |s.workers| && !s.workers[w].Running? && !s.workers[w].Parked?
    requires i < |c.values| && ValidWeight(c, i)
    ensures GateOk(c, Acquire(c, s, w, i))
  {
    hide Fail, Abort, WakeAll, Taken;
    if s.aborted {
      FailGate(c, s, w);
    } else {
      TakenUpdate(c, s.workers, w, Parked(i));
      TakenUpdate(c, s.workers, w, Running(i));
    }
  }

  /** Releasing wakes every waiter, so none is left behind that might fit now. */
  lemma ReleaseGate<V, R>(c: Config<V, R>, s: State<R>, w: nat, ok: bool)
    requires GateOk(c, s) && w < |s.workers| && s.workers[w].Running? && |s.results| == |c.values|
    ensures GateOk(c, Step(c, s, w, ok))
  {
    var after, i := Step(c, s, w, ok), s.workers[w].index;
    var pc := if ok then Completing(i) else Done;
    TakenUpdate(c, s.workers, w, pc);
    TakenSame(c, after.workers, s.workers[w := pc]);
    ReleaseWorkers(c, s, w, ok);
  }

  lemma ReleaseWorkers<V, R>(c: Config<V, R>, s: State<R>, w: nat, ok: bool)
    requires GateOk(c, s) && w < |s.workers| && s.workers[w].Running? && |s.results| == |c.values|
    ensures var after := Step(c, s, w, ok);
            && after.waiters == {} && after.activeWeight == s.activeWeight - WeightOf(c, s.workers[w].index) && WeightOf(c, s.workers[w].index) >= 0
            && forall k :: 0 <= k < |s.workers| ==> !after.workers[k].Parked? && WorkerOk(c, after, after.workers[k])
  {
  }

  lemma LoopGate<V, R>(c: Config<V, R>, s: State<R>, w: nat, ok: bool)
    requires GateOk(c, s) && w < |s.workers| && |s.results| == |c.values| && s.nextIndex <= |c.values|
    requires s.workers[w].Loop? || (s.workers[w].Completing? && ok)
    ensures GateOk(c, Step(c, s, w, ok))
  {
    hide Abort, WakeAll, Acquire, Fail, WeightOf, Taken;
    TakenUpdate(c, s.workers, w, Done);
    TakenUpdate(c, s.workers, w, Loop);
    TakenUpdate(c, s.workers, w, Sampling(s.nextIndex));
  }

  lemma StepGate<V, R>(c: Config<V, R>, s: State<R>, w: nat, ok: bool)
    requires GateOk(c, s) && w < |s.workers| && |s.results| == |c.values| && s.nextIndex <= |c.values|
    ensures GateOk(c, Step(c, s, w, ok))
  {
    hide Abort, WakeAll, Taken, TakenBy, Acquire, Fail, WeightOf, ValidWeight;
    match s.workers[w]
    case Loop => LoopGate(c, s, w, ok);
    case Sampling(i) =>
      if !ok || s.aborted || !ValidWeight(c, i) { FailGate(c, s, w); } else { AcquireGate(c, s, w, i); }
    case Woken(i) => AcquireGate(c, s, w, i);
    case Running(_) => ReleaseGate(c, s, w, ok);
    case Completing(_) => if ok { LoopGate(c, s, w, ok); } else { FailGate(c, s, w); }
    case Rejected => FailGate(c, s, w);
    case _ =>
  }

  // ---- One step keeps the indices ----

  /** Only which worker waits how, and whether the run has failed, changed. */
  ghost predicate SameWork<R>(s: State<R>, t: State<R>) {
    && t.nextIndex == s.nextIndex && t.results == s.results && t.calls == s.calls && |t.workers| == |s.workers|
    && (s.aborted ==> t.aborted) && (t.failed ==> t.aborted)
    && (forall k :: 0 <= k < |s.workers| ==>
          t.workers[k] == s.workers[k] || (s.workers[k].Parked? && t.workers[k] == Woken(s.workers[k].index))
          || (t.aborted && (t.workers[k].Done? || t.workers[k].Rejected?)))
  }

  lemma SameWorkIndices<V, R>(c: Config<V, R>, s: State<R>, t: State<R>)
    requires IndicesOk(c, s) && SameWork(s, t)
    ensures IndicesOk(c, t)
  {
    assert forall k, i :: 0 <= k < |t.workers| && Holds(t.workers[k], i) ==> Holds(s.workers[k], i);
    assert forall k, i :: 0 <= k < |t.workers| && Waits(t.workers[k], i) ==> Waits(s.workers[k], i);
    if !t.aborted {
      forall i | 0 <= i < t.nextIndex && t.results[i].None? ensures exists w :: 0 <= w < |t.workers| && Holds(t.workers[w], i) {
        var w :| 0 <= w < |s.workers| && Holds(s.workers[w], i);
        assert Holds(t.workers[w], i);
      }
    }
  }

  /** While every holder keeps its index, every index that was held still is. */
  lemma HeldStill<R>(s: State<R>, t: State<R>)
    requires t.nextIndex == s.nextIndex <= |s.results| && t.results == s.results && |t.workers| == |s.workers|
    requires forall k, i :: 0 <= k < |s.workers| && Holds(s.workers[k], i) ==> Holds(t.workers[k], i)
    requires forall i :: 0 <= i < s.nextIndex ==> s.results[i].Some? || exists v :: 0 <= v < |s.workers| && Holds(s.workers[v], i)
    ensures forall i :: 0 <= i < t.nextIndex ==> t.results[i].Some? || exists v :: 0 <= v < |t.workers| && Holds(t.workers[v], i)
  {
    forall i | 0 <= i < t.nextIndex && t.results[i].None? ensures exists v :: 0 <= v < |t.workers| && Holds(t.workers[v], i) {
      var v :| 0 <= v < |s.workers| && Holds(s.workers[v], i);
      assert Holds(t.workers[v], i);
    }
  }

  /** A worker moves on with the index it holds. */
  lemma MoveIndices<V, R>(c: Config<V, R>, s: State<R>, w: nat, pc: Pc)
    requires IndicesOk(c, s) && w < |s.workers|
    requires forall i :: Holds(pc, i) <==> Holds(s.workers[w], i)
    requires forall i :: Waits(pc, i) ==> Waits(s.workers[w], i)
    requires pc.Running? ==> pc.index in s.calls
    ensures IndicesOk(c, Goto(s, w, pc))
  {
    hide WeightOf;
    var t := Goto(s, w, pc);
    assert forall k, i :: 0 <= k < |t.workers| && Holds(t.workers[k], i) <==> 0 <= k < |s.workers| && Holds(s.workers[k], i);
    assert forall k, i :: 0 <= k < |t.workers| && Waits(t.workers[k], i) ==> Waits(s.workers[k], i);
    if !t.aborted { HeldStill(s, t); }
  }

  /** A worker takes the next index. */
  lemma TakeIndex<V, R>(c: Config<V, R>, s: State<R>, w: nat)
    requires IndicesOk(c, s) && w < |s.workers| && s.workers[w].Loop? && s.nextIndex < |c.values|
    ensures IndicesOk(c, Goto(s, w, Sampling(s.nextIndex)).(nextIndex := s.nextIndex + 1))
  {
    var t := Goto(s, w, Sampling(s.nextIndex)).(nextIndex := s.nextIndex + 1);
    assert forall k, i :: 0 <= k < |t.workers| && Holds(t.workers[k], i) ==> (k == w && i == s.nextIndex) || Holds(s.workers[k], i);
    assert forall k, i :: 0 <= k < |t.workers| && Waits(t.workers[k], i) ==> (k == w && i == s.nextIndex) || Waits(s.workers[k], i);
    if !t.aborted {
      forall i | 0 <= i < t.nextIndex && t.results[i].None? ensures exists v :: 0 <= v < |t.workers| && Holds(t.workers[v], i) {
        if i == s.nextIndex {
          assert Holds(t.workers[w], i);
        } else {
          var v :| 0 <= v < |s.workers| && Holds(s.workers[v], i);
          assert Holds(t.workers[v], i);
        }
      }
    }
  }

  lemma DistinctAppend(calls: seq<nat>, i: nat)
    requires i !in calls && forall j, k :: 0 <= j < k < |calls| ==> calls[j] != calls[k]
    ensures forall j, k :: 0 <= j < k < |calls + [i]| ==> (calls + [i])[j] != (calls + [i])[k]
  {
  }

  /** The other waiting workers wait for other indexes. */
  lemma WaitsElsewhere<V, R>(c: Config<V, R>, s: State<R>, w: nat, i: nat)
    requires IndicesOk(c, s) && w < |s.workers| && Waits(s.workers[w], i)
    ensures i !in s.calls
    ensures var u := Goto(s, w, Running(i));
            && (forall k, j :: 0 <= k < |u.workers| && Waits(u.workers[k], j) ==> j !in s.calls + [i])
            && (forall k, j :: 0 <= k < |u.workers| ==> (Holds(u.workers[k], j) <==> Holds(s.workers[k], j)))
            && (forall k :: 0 <= k < |u.workers| && u.workers[k].Running? ==> u.workers[k].index in s.calls + [i])
  {
    hide WeightOf;
    assert Holds(s.workers[w], i);
    assert forall k, j :: 0 <= k < |s.workers| && Waits(s.workers[k], j) ==> Holds(s.workers[k], j);
  }

  /** A worker starts the task of the index it holds, for the first time. */
  lemma StartIndices<V, R>(c: Config<V, R>, s: State<R>, w: nat, i: nat)
    requires IndicesOk(c, s) && w < |s.workers| && Waits(s.workers[w], i)
    ensures IndicesOk(c, Goto(s, w, Running(i)).(calls := s.calls + [i]))
  {
    var u := Goto(s, w, Running(i)).(calls := s.calls + [i]);
    WaitsElsewhere(c, s, w, i);
    DistinctAppend(s.calls, i);
    StartedIsTaken(c, s, w, i);
    hide WeightOf, Waits, Holds;
    if !u.aborted { HeldStill(s, u); }
  }

  lemma StartedIsTaken<V, R>(c: Config<V, R>, s: State<R>, w: nat, i: nat)
    requires IndicesOk(c, s) && w < |s.workers| && Waits(s.workers[w], i)
    ensures forall j :: j in s.calls + [i] ==> j < s.nextIndex
  {
    hide WeightOf;
    assert Holds(s.workers[w], i);
  }

  /** A result is stored. */
  lemma ResultIndices<V, R>(c: Config<V, R>, s: State<R>, i: nat)
    requires IndicesOk(c, s) && i in s.calls && i < |c.values|
    ensures IndicesOk(c, s.(results := s.results[i := Some(c.task(c.values[i], i))]))
  {
  }

  /** A worker whose index has its result goes back for another. */
  lemma FinishIndices<V, R>(c: Config<V, R>, s: State<R>, w: nat)
    requires IndicesOk(c, s) && w < |s.workers|
    requires forall i :: Holds(s.workers[w], i) ==> 0 <= i < |s.results| && s.results[i].Some?
    ensures IndicesOk(c, Goto(s, w, Loop)) && IndicesOk(c, Goto(s, w, Done))
  {
    forall pc | pc in {Loop, Done} ensures IndicesOk(c, Goto(s, w, pc)) {
      var t := Goto(s, w, pc);
      assert forall k, i :: 0 <= k < |t.workers| && Holds(t.workers[k], i) ==> Holds(s.workers[k], i);
      assert forall k, i :: 0 <= k < |t.workers| && Waits(t.workers[k], i) ==> Waits(s.workers[k], i);
      if !t.aborted {
        forall i | 0 <= i < t.nextIndex && t.results[i].None? ensures exists v :: 0 <= v < |t.workers| && Holds(t.workers[v], i) {
          var v :| 0 <= v < |s.workers| && Holds(s.workers[v], i);
          assert Holds(t.workers[v], i);
        }
      }
    }
  }

  lemma AcquireIndices<V, R>(c: Config<V, R>, s: State<R>, w: nat, i: nat)
    requires IndicesOk(c, s) && w < |s.workers| && Waits(s.workers[w], i) && i < |c.values|
    ensures IndicesOk(c, Acquire(c, s, w, i))
  {
    hide IndicesOk, WeightOf;
    if s.aborted {
      SameWorkIndices(c, s, Fail(s, w));
    } else {
      MoveIndices(c, s, w, Parked(i));
      StartIndices(c, s, w, i);
      IndicesOnly(c, Goto(s, w, Parked(i)), Acquire(c, s, w, i));
      IndicesOnly(c, Goto(s, w, Running(i)).(calls := s.calls + [i]), Acquire(c, s, w, i));
    }
  }

  /** The gate's own fields do not matter. */
  lemma IndicesOnly<V, R>(c: Config<V, R>, s: State<R>, t: State<R>)
    requires IndicesOk(c, s)
    ensures t == s.(waiters := t.waiters, activeWeight := t.activeWeight) ==> IndicesOk(c, t)
  {
  }

  lemma RunningIsCalled<V, R>(c: Config<V, R>, s: State<R>, w: nat)
    requires IndicesOk(c, s) && w < |s.workers| && s.workers[w].Running?
    ensures s.workers[w].index in s.calls && (s.failed ==> s.aborted)
  {
  }

  lemma ReleaseIndices<V, R>(c: Config<V, R>, s: State<R>, w: nat, ok: bool)
    requires IndicesOk(c, s) && GateOk(c, s) && w < |s.workers| && s.workers[w].Running? && |s.results| == |c.values|
    ensures IndicesOk(c, Step(c, s, w, ok))
  {
    hide IndicesOk, WeightOf, Taken;
    var i := s.workers[w].index;
    RunningIsCalled(c, s, w);
    var released := WakeAll(s.(activeWeight := s.activeWeight - WeightOf(c, i)));
    if ok {
      SameWorkIndices(c, s, released);
      ResultIndices(c, released, i);
      MoveIndices(c, released.(results := s.results[i := Some(c.task(c.values[i], i))]), w, Completing(i));
    } else {
      SameWorkIndices(c, s, Fail(released, w));
    }
  }

  lemma StepIndices<V, R>(c: Config<V, R>, s: State<R>, w: nat, ok: bool)
    requires IndicesOk(c, s) && GateOk(c, s) && w < |s.workers| && |s.results| == |c.values|
    ensures IndicesOk(c, Step(c, s, w, ok))
  {
    hide IndicesOk, WeightOf, Taken, Acquire, ValidWeight;
    FailedIsAborted(c, s);
    match s.workers[w]
    case Loop =>
      FinishIndices(c, s, w);
      if s.nextIndex < |c.values| { TakeIndex(c, s, w); }
    case Sampling(i) =>
      if !ok || s.aborted || !ValidWeight(c, i) { SameWorkIndices(c, s, Fail(s, w)); } else { AcquireIndices(c, s, w, i); }
    case Woken(i) => AcquireIndices(c, s, w, i);
    case Running(_) => ReleaseIndices(c, s, w, ok);
    case Completing(i) =>
      if ok { FinishIndices(c, s, w); } else { SameWorkIndices(c, s, Fail(s, w)); }
    case Rejected => SameWorkIndices(c, s, Fail(s, w));
    case _ =>
  }

  lemma FailedIsAborted<V, R>(c: Config<V, R>, s: State<R>)
    requires IndicesOk(c, s)
    ensures s.failed ==> s.aborted
  {
  }

  // ---- Whole runs ----

  ghost predicate Inv<V, R>(c: Config<V, R>, s: State<R>) {
    GateOk(c, s) && IndicesOk(c, s)
  }

  lemma NextKeeps<V, R>(c: Config<V, R>, s: State<R>, choice: Choice)
    requires Inv(c, s)
    ensures Inv(c, Next(c, s, choice))
  {
    hide WeightOf, Taken, Acquire, ValidWeight, Step;
    match choice
    case ExternalAbort =>
      AbortGate(c, s);
      SameWorkIndices(c, s, Abort(s));
    case Run(w, ok) =>
      if w < |s.workers| {
        StepGate(c, s, w, ok);
        StepIndices(c, s, w, ok);
      }
  }

  lemma {:induction false} InitialKeeps<V, R>(c: Config<V, R>, workers: nat)
    requires c.maximum.Some? ==> c.maximum.value > 0
    ensures Inv(c, Initial(c, workers))
  {
    NothingTaken(c, Initial(c, workers).workers);
  }

  lemma {:induction false} NothingTaken<V, R>(c: Config<V, R>, workers: seq<Pc>)
    requires forall w :: 0 <= w < |workers| ==> !workers[w].Running?
    ensures Taken(c, workers) == 0
  {
    if workers != [] { NothingTaken(c, workers[..|workers| - 1]); }
  }

  lemma {:induction false} ExecuteKeeps<V, R>(c: Config<V, R>, workers: nat, schedule: seq<Choice>)
    requires c.maximum.Some? ==> c.maximum.value > 0
    ensures Inv(c, Execute(c, workers, schedule))
  {
    if schedule == [] {
      InitialKeeps(c, workers);
    } else {
      ExecuteKeeps(c, workers, schedule[..|schedule| - 1]);
      NextKeeps(c, Execute(c, workers, schedule[..|schedule| - 1]), schedule[|schedule| - 1]);
    }
  }

  /** In every interleaving the weights taken add up, and never exceed the limit. */
  lemma WeightNeverExceeds<V, R>(c: Config<V, R>, workers: nat, schedule: seq<Choice>)
    requires c.maximum.Some? ==> c.maximum.value > 0
    ensures var s := Execute(c, workers, schedule);
            && s.activeWeight == Taken(c, s.workers) >= 0
            && (c.maximum.Some? ==> s.activeWeight <= c.maximum.value)
  {
    ExecuteKeeps(c, workers, schedule);
    var s := Execute(c, workers, schedule);
    TakenBounds(c, s, |s.workers|);
    assert s.workers[..|s.workers|] == s.workers;
  }

  /** No wake-up is lost: a parked worker does not fit, and some running task will wake it. */
  lemma ParkedIsWoken<V, R>(c: Config<V, R>, workers: nat, schedule: seq<Choice>, w: nat)
    requires c.maximum.Some? ==> c.maximum.value > 0
    requires var s := Execute(c, workers, schedule); w < |s.workers| && s.workers[w].Parked?
    ensures var s := Execute(c, workers, schedule);
            && w in s.waiters && s.workers[w].index < |c.values| && c.maximum.Some?
            && s.activeWeight + WeightOf(c, s.workers[w].index) > c.maximum.value
            && exists v :: 0 <= v < |s.workers| && s.workers[v].Running?
  {
    ExecuteKeeps(c, workers, schedule);
    var s := Execute(c, workers, schedule);
    assert WorkerOk(c, s, s.workers[w]);
    TakenBounds(c, s, |s.workers|);
    assert s.workers[..|s.workers|] == s.workers;
  }

  /** The pool never blocks: while a worker is not done, some worker that is not done can take a step. */
  lemma NeverBlocked<V, R>(c: Config<V, R>, workers: nat, schedule: seq<Choice>)
    requires c.maximum.Some? ==> c.maximum.value > 0
    ensures var s := Execute(c, workers, schedule);
            (exists w :: 0 <= w < |s.workers| && !s.workers[w].Done?) ==>
            exists w :: 0 <= w < |s.workers| && !s.workers[w].Done? && !s.workers[w].Parked?
  {
    var s := Execute(c, workers, schedule);
    if w :| 0 <= w < |s.workers| && !s.workers[w].Done? {
      if s.workers[w].Parked? {
        ParkedIsWoken(c, workers, schedule, w);
        var v :| 0 <= v < |s.workers| && s.workers[v].Running?;
      }
    }
  }

  predicate AllDone<R>(s: State<R>) {
    forall w :: 0 <= w < |s.workers| ==> s.workers[w].Done?
  }

  /**
   When every worker is done and nothing failed or was aborted, each task was called exactly
   once and each result is the result of its own value. In any case no weight is left taken.
   */
  lemma FinishedRun<V, R>(c: Config<V, R>, workers: nat, schedule: seq<Choice>)
    requires workers > 0 && (c.maximum.Some? ==> c.maximum.value > 0)
    requires AllDone(Execute(c, workers, schedule))
    ensures var s := Execute(c, workers, schedule);
            && s.activeWeight == 0 && s.waiters == {} && (s.failed ==> s.aborted)
            && (forall i, j :: 0 <= i < j < |s.calls| ==> s.calls[i] != s.calls[j])
            && (!s.aborted ==> forall i :: 0 <= i < |c.values| ==> i in s.calls && s.results[i] == Some(c.task(c.values[i], i)))
  {
    ExecuteKeeps(c, workers, schedule);
    FinishedState(c, Execute(c, workers, schedule));
  }

  lemma FinishedState<V, R>(c: Config<V, R>, s: State<R>)
    requires Inv(c, s) && |s.workers| > 0 && AllDone(s)
    ensures s.activeWeight == 0 && s.waiters == {} && (s.failed ==> s.aborted)
    ensures forall i, j :: 0 <= i < j < |s.calls| ==> s.calls[i] != s.calls[j]
    ensures !s.aborted ==> |s.results| == |c.values|
                           && forall i :: 0 <= i < |c.values| ==> i in s.calls && s.results[i] == Some(c.task(c.values[i], i))
  {
    NothingTaken(c, s.workers);
    assert WorkerOk(c, s, s.workers[0]);
    if !s.aborted {
      forall i | 0 <= i < |c.values| ensures i in s.calls && s.results[i] == Some(c.task(c.values[i], i)) {
        HeldOrFinished(c, s, i);
      }
    }
  }

  lemma HeldOrFinished<V, R>(c: Config<V, R>, s: State<R>, i: nat)
    requires IndicesOk(c, s) && !s.aborted && i < s.nextIndex
    ensures s.results[i].Some? || exists w :: 0 <= w < |s.workers| && Holds(s.workers[w], i)
  {
  }

  // ---- Every run ends ----

  /** How many steps of its own a worker can still be made to take before the next index. */
  function Rank(workers: nat, pc: Pc): nat {
    match pc
    case Done => 0
    case Loop => 1
    case Rejected => 1
    case Completing(_) => 2
    case Running(_) => workers + 3
    case Parked(_) => workers + 4
    case Woken(_) => workers + 5
    case Sampling(_) => workers + 6
  }

  function Ranks(n: nat, workers: seq<Pc>): nat {
    if workers == [] then 0 else Ranks(n, workers[..|workers| - 1]) + Rank(n, workers[|workers| - 1])
  }

  function Measure<V, R>(c: Config<V, R>, s: State<R>): int {
    Ahead(|c.values|, s.nextIndex, |s.workers|) + Ranks(|s.workers|, s.workers)
  }

  /** The steps of the indices that are not taken yet. */
  function Ahead(values: nat, next: nat, workers: nat): int {
    (values - next) * (workers + 7)
  }

  lemma AheadNext(values: nat, next: nat, workers: nat)
    ensures Ahead(values, next + 1, workers) == Ahead(values, next, workers) - workers - 7
  {
    assert (values - (next + 1)) * (workers + 7) == (values - next) * (workers + 7) - (workers + 7);
  }

  lemma {:induction false} RanksUpdate(n: nat, workers: seq<Pc>, w: nat, pc: Pc)
    requires w < |workers|
    ensures Ranks(n, workers[w := pc]) == Ranks(n, workers) - Rank(n, workers[w]) + Rank(n, pc)
  {
    var last := |workers| - 1;
    if w < last {
      RanksUpdate(n, workers[..last], w, pc);
      assert workers[w := pc][..last] == workers[..last][w := pc];
    } else {
      assert workers[w := pc][..last] == workers[..last];
    }
  }

  /** Waking raises every rank by one at most; nothing else raises any. */
  lemma {:induction false} RanksBound(n: nat, a: seq<Pc>, b: seq<Pc>, extra: nat)
    requires |a| == |b| && extra <= 1 && forall k :: 0 <= k < |a| ==> Rank(n, a[k]) <= Rank(n, b[k]) + extra
    ensures Ranks(n, a) <= Ranks(n, b) + extra * |a|
  {
    if a != [] { RanksBound(n, a[..|a| - 1], b[..|b| - 1], extra); }
  }

  lemma FailShape<R>(s: State<R>, w: nat)
    requires w < |s.workers|
    ensures var after := Fail(s, w);
            && |after.workers| == |s.workers| && after.nextIndex == s.nextIndex
            && forall k :: 0 <= k < |s.workers| ==>
                 after.workers[k] == s.workers[w := Done][k] || (s.workers[w := Done][k].Parked? && after.workers[k].Rejected?)
  {
  }

  lemma FailMeasure<V, R>(c: Config<V, R>, s: State<R>, w: nat)
    requires w < |s.workers| && !s.workers[w].Done?
    ensures Measure(c, Fail(s, w)) < Measure(c, s)
  {
    hide Ahead, Fail, Ranks;
    RanksUpdate(|s.workers|, s.workers, w, Done);
    FailShape(s, w);
    RanksBound(|s.workers|, Fail(s, w).workers, s.workers[w := Done], 0);
  }

  /** After a release the worker has moved on, and the others are as before or were woken or rejected. */
  lemma ReleaseShape<V, R>(c: Config<V, R>, s: State<R>, w: nat, ok: bool)
    requires w < |s.workers| && s.workers[w].Running? && s.workers[w].index < |c.values| == |s.results|
    ensures var after := Step(c, s, w, ok);
            var moved := s.workers[w := if ok then Completing(s.workers[w].index) else Done];
            && |after.workers| == |s.workers| && after.nextIndex == s.nextIndex
            && forall k :: 0 <= k < |s.workers| ==>
                 after.workers[k] == moved[k] || (moved[k].Parked? && (after.workers[k].Woken? || after.workers[k].Rejected?))
  {
  }

  lemma ReleaseMeasure<V, R>(c: Config<V, R>, s: State<R>, w: nat, ok: bool)
    requires w < |s.workers| && s.workers[w].Running? && s.workers[w].index < |c.values| == |s.results|
    ensures Measure(c, Step(c, s, w, ok)) < Measure(c, s)
  {
    hide Ahead, Step, Ranks;
    var n, after := |s.workers|, Step(c, s, w, ok);
    var pc := if ok then Completing(s.workers[w].index) else Done;
    RanksUpdate(n, s.workers, w, pc);
    ReleaseShape(c, s, w, ok);
    RanksBound(n, after.workers, s.workers[w := pc], 1);
  }

  lemma AcquireMeasure<V, R>(c: Config<V, R>, s: State<R>, w: nat, i: nat)
    requires w < |s.workers| && (s.workers[w].Sampling? || s.workers[w].Woken?) && i < |c.values|
    ensures Measure(c, Acquire(c, s, w, i)) < Measure(c, s)
  {
    hide Ahead, Fail, Abort;
    FailMeasure(c, s, w);
    RanksUpdate(|s.workers|, s.workers, w, Parked(i));
    RanksUpdate(|s.workers|, s.workers, w, Running(i));
  }

  lemma LoopMeasure<V, R>(c: Config<V, R>, s: State<R>, w: nat)
    requires w < |s.workers| && |s.results| == |c.values|
    requires s.workers[w].Loop? || s.workers[w].Completing?
    ensures Measure(c, Step(c, s, w, true)) < Measure(c, s)
  {
    hide Ahead, Fail, Abort;
    var n := |s.workers|;
    RanksUpdate(n, s.workers, w, Done);
    RanksUpdate(n, s.workers, w, Loop);
    RanksUpdate(n, s.workers, w, Sampling(s.nextIndex));
    AheadNext(|c.values|, s.nextIndex, n);
  }

  lemma StepMeasure<V, R>(c: Config<V, R>, s: State<R>, w: nat, ok: bool)
    requires GateOk(c, s) && w < |s.workers| && !s.workers[w].Parked? && !s.workers[w].Done? && |s.results| == |c.values|
    ensures Measure(c, Step(c, s, w, ok)) < Measure(c, s)
  {
    hide Measure, Fail, Acquire, WakeAll, WeightOf, ValidWeight, Taken;
    assert WorkerOk(c, s, s.workers[w]);
    FailMeasure(c, s, w);
    match s.workers[w]
    case Loop => LoopMeasure(c, s, w);
    case Completing(_) => LoopMeasure(c, s, w);
    case Running(_) => ReleaseMeasure(c, s, w, ok);
    case Sampling(i) => AcquireMeasure(c, s, w, i);
    case Woken(i) => AcquireMeasure(c, s, w, i);
    case _ =>
  }

  /** How many of the steps of a schedule moved a worker. */
  function Moves<V, R>(c: Config<V, R>, workers: nat, schedule: seq<Choice>): nat {
    if schedule == [] then 0
    else
      var before, choice := schedule[..|schedule| - 1], schedule[|schedule| - 1];
      var s := Execute(c, workers, before);
      Moves(c, workers, before)
      + if choice.Run? && choice.worker < workers && !s.workers[choice.worker].Parked? && !s.workers[choice.worker].Done? then 1 else 0
  }

  /** Every interleaving ends: no schedule moves workers more often than this. */
  lemma {:induction false} EveryRunEnds<V, R>(c: Config<V, R>, workers: nat, schedule: seq<Choice>)
    requires c.maximum.Some? ==> c.maximum.value > 0
    ensures Moves(c, workers, schedule) + Measure(c, Execute(c, workers, schedule)) <= |c.values| * (workers + 7) + workers
    ensures Measure(c, Execute(c, workers, schedule)) >= 0
  {
    hide Ahead, GateOk, IndicesOk, Rank, Step;
    ExecuteKeeps(c, workers, schedule);
    MeasureNatural(c, Execute(c, workers, schedule));
    if schedule == [] {
      InitialRanks(workers, Initial(c, workers).workers);
      AheadOfAll(|c.values|, workers);
    } else {
      var before, choice := schedule[..|schedule| - 1], schedule[|schedule| - 1];
      var s := Execute(c, workers, before);
      EveryRunEnds(c, workers, before);
      ExecuteKeeps(c, workers, before);
      match choice
      case ExternalAbort => AbortMeasure(c, s);
      case Run(w, ok) => if w < workers { MoveMeasure(c, s, w, ok); }
    }
  }

  lemma AheadOfAll(values: nat, workers: nat)
    ensures Ahead(values, 0, workers) == values * (workers + 7)
  {
  }

  lemma AbortMeasure<V, R>(c: Config<V, R>, s: State<R>)
    ensures Measure(c, Abort(s)) <= Measure(c, s)
  {
    hide Ahead;
    RanksBound(|s.workers|, Abort(s).workers, s.workers, 0);
  }

  lemma MoveMeasure<V, R>(c: Config<V, R>, s: State<R>, w: nat, ok: bool)
    requires Inv(c, s) && w < |s.workers|
    ensures var after := Step(c, s, w, ok);
            if s.workers[w].Parked? || s.workers[w].Done? then after == s else Measure(c, after) < Measure(c, s)
  {
    hide Measure, Fail, Acquire;
    if !s.workers[w].Parked? && !s.workers[w].Done? { StepMeasure(c, s, w, ok); }
  }

  lemma NextWithin<V, R>(c: Config<V, R>, s: State<R>)
    requires IndicesOk(c, s)
    ensures s.nextIndex <= |c.values|
  {
  }

  lemma AheadNatural(values: nat, next: nat, workers: nat)
    requires next <= values
    ensures Ahead(values, next, workers) >= 0
  {
    var a, b: nat := values - next, workers + 7;
    assert a * b >= 0;
  }

  lemma MeasureNatural<V, R>(c: Config<V, R>, s: State<R>)
    requires IndicesOk(c, s)
    ensures Measure(c, s) >= 0
  {
    NextWithin(c, s);
    hide IndicesOk, Ranks, Ahead;
    AheadNatural(|c.values|, s.nextIndex, |s.workers|);
  }

  lemma {:induction false} InitialRanks(n: nat, workers: seq<Pc>)
    requires forall w :: 0 <= w < |workers| ==> workers[w].Loop?
    ensures Ranks(n, workers) == |workers|
  {
    if workers != [] { InitialRanks(n, workers[..|workers| - 1]); }
  }
}
