/**
 The lock of a job history: any number of stores, in any number of processes, acquire and
 release it, one file-system call at a time. The lock file may be published or reclaimed only
 by the holder of a second lock file, the reclaimer. Files have identities that are never
 reused, and a liveness test says correctly whether a process is alive. Processes may die
 anywhere, except while their file is at the reclaimer's name.
 */
module HistoryLock {
  import opened LineLog

  type FileId = nat
  type Actor = nat
  type Pid = nat

  datatype Name = LockName | ReclaimerName

  datatype Disposition = Live | Stale | Invalid

  datatype Observation = Observation(disposition: Disposition, id: FileId)

  /** Which of its inspections an actor is in, and what the one before saw. */
  datatype Turn = First | Confirm(seen: Observation) | Remove(seen: Observation)

  /** The removal of the file `id` from `name`: the actor's own, or one it found abandoned. */
  datatype Removal = Removal(name: Name, id: FileId, handle: FileId, own: bool)

  /** Where an actor is: each value is just before one file-system call. */
  datatype Pc =
    | Idle | Dead | Holding
    | Start(name: Name)                                            // publishLock: create a candidate
    | Candidate(name: Name, id: FileId)                            //   link it
    | Linked(name: Name, id: FileId)                               //   unlink the candidate's name
    | Published(name: Name, id: FileId)                            //   open the published file
    | Reopened(name: Name, id: FileId, handle: FileId)             //   compare it
    | Withdraw(name: Name, id: FileId)                             //   removePublishedLock: open
    | Look(name: Name, turn: Turn)                                 // inspectLock: lstat
    | Viewed(name: Name, turn: Turn, id: FileId)                   //   open
    | Opened(name: Name, turn: Turn, id: FileId, handle: FileId)   //   read, and test for life
    | Evict(name: Name, id: FileId)                                // removeObservedLock: open
    | Check(m: Removal)                                            // quarantineOwnedLock: compare
    | Rename(m: Removal)                                           //   rename it away
    | CheckAside(m: Removal, file: FileId)                         //   compare again
    | Unlink(m: Removal)                                           //   unlink
    | Restore(m: Removal, file: FileId)                            // restoreQuarantinedLock: lstat
    | PutBack(m: Removal, file: FileId)                            //   rename it back

  /** An actor, and the files it has published and not yet moved away. */
  datatype Local = Local(pc: Pc, lock: Option<FileId>, reclaimer: Option<FileId>) {
    function Mine(name: Name): Option<FileId> {
      if name == LockName then lock else reclaimer
    }

    function SetMine(name: Name, file: Option<FileId>): Local {
      if name == LockName then this.(lock := file) else this.(reclaimer := file)
    }
  }

  /**
   What the actors share. `twice` are the files that still have two names; `linked` are the
   files that were ever published.
   */
  datatype Shared = Shared(at: map<Name, FileId>, twice: set<FileId>, linked: set<FileId>, owner: seq<Actor>,
                           pid: map<Actor, Pid>, alive: set<Pid>) {
    ghost predicate Wf() {
      && (forall id :: id in linked ==> id < |owner|)
      && (forall id :: 0 <= id < |owner| ==> owner[id] in pid)
      && (forall name :: name in at ==> at[name] in linked)
    }

    /** The process that made the file is alive. */
    predicate Alive(id: FileId) {
      id < |owner| && owner[id] in pid && pid[owner[id]] in alive
    }
  }

  datatype State = State(shared: Shared, locals: map<Actor, Local>)

  // ---- The steps ----

  function Own(name: Name, id: FileId): Pc {
    Check(Removal(name, id, id, true))
  }

  /** An error: an actor that holds the reclaimer releases it. */
  function Fail(x: Local): Local {
    x.(pc := if x.reclaimer.Some? then Own(ReclaimerName, x.reclaimer.value) else Idle)
  }

  /** An error in a removal; failing to release the reclaimer gives up the lock. */
  function FailRemoval(x: Local, m: Removal): Local {
    if m.own && m.name == ReclaimerName
    then x.(pc := if x.lock.Some? then Own(LockName, x.lock.value) else Idle)
    else Fail(x)
  }

  /** What follows a completed removal. */
  function AfterRemoval(x: Local, m: Removal): Local {
    if !m.own then x.(pc := Start(m.name))
    else if m.name == ReclaimerName then x.(pc := if x.lock.Some? then Holding else Idle)
    else Fail(x)
  }

  /** An inspection found no file. */
  function FoundNothing(x: Local, name: Name, turn: Turn, giveUp: bool): Local {
    if !turn.First? then Fail(x)
    else if name == ReclaimerName && giveUp then x.(pc := Idle)
    else x.(pc := Start(name))
  }

  /** An inspection ended with an observation. */
  function Observed(x: Local, name: Name, turn: Turn, o: Observation, giveUp: bool): Local {
    match turn
    case First =>
      if o.disposition.Live? then
        if name == LockName then Fail(x) else x.(pc := if giveUp then Idle else Start(ReclaimerName))
      else x.(pc := Look(name, if name == LockName then Confirm(o) else Remove(o)))
    case Confirm(seen) =>
      if o != seen || o.disposition.Live? then Fail(x) else x.(pc := Look(name, Remove(o)))
    case Remove(seen) =>
      if o != seen then Fail(x) else x.(pc := Evict(name, o.id))
  }

  /** The step of an actor whose call only reads. */
  function Read(s: Shared, x: Local, giveUp: bool): Local {
    match x.pc
    case Idle => if giveUp then x else x.(pc := Start(ReclaimerName))
    case Holding => if giveUp || x.lock.None? then x else x.(pc := Own(LockName, x.lock.value))
    case Published(name, id) =>
      x.(pc := if name in s.at then Reopened(name, id, s.at[name]) else Withdraw(name, id))
    case Reopened(name, id, handle) =>
      if handle == id && handle !in s.twice && name in s.at && s.at[name] == id
      then if name == ReclaimerName then x.(pc := Look(LockName, First)) else Fail(x)
      else x.(pc := Withdraw(name, id))
    case Withdraw(name, id) =>
      if name in s.at then x.(pc := Check(Removal(name, id, s.at[name], true))) else Fail(x)
    case Look(name, turn) =>
      if name !in s.at then FoundNothing(x, name, turn, giveUp)
      else if s.at[name] in s.twice then Fail(x)
      else x.(pc := Viewed(name, turn, s.at[name]))
    case Viewed(name, turn, id) =>
      if name !in s.at then FoundNothing(x, name, turn, giveUp)
      else x.(pc := Opened(name, turn, id, s.at[name]))
    case Opened(name, turn, id, handle) =>
      var disposition := if handle != id then Invalid else if s.Alive(handle) then Live else Stale;
      Observed(x, name, turn, Observation(disposition, id), giveUp)
    case Evict(name, id) =>
      if name in s.at then x.(pc := Check(Removal(name, id, s.at[name], false))) else Fail(x)
    case Check(m) =>
      if m.own && m.name !in s.at then AfterRemoval(x, m)
      else if m.handle == m.id && m.name in s.at && s.at[m.name] == m.id then x.(pc := Rename(m))
      else FailRemoval(x, m)
    case CheckAside(m, file) =>
      x.(pc := if file == m.id && m.handle == m.id then Unlink(m) else Restore(m, file))
    case Unlink(m) => AfterRemoval(x, m)
    case Restore(m, file) =>
      if m.name in s.at then FailRemoval(x, m) else x.(pc := PutBack(m, file))
    case _ => x
  }

  /** One step of an actor. */
  function Act(s: Shared, a: Actor, x: Local, giveUp: bool): (Shared, Local) {
    match x.pc
    case Start(name) =>
      (s.(owner := s.owner + [a]), x.(pc := Candidate(name, |s.owner|)))
    case Candidate(name, id) =>
      if name in s.at then (s, if name == ReclaimerName then x.(pc := Look(name, First)) else Fail(x))
      else (s.(at := s.at[name := id], twice := s.twice + {id}, linked := s.linked + {id}),
            x.SetMine(name, Some(id)).(pc := Linked(name, id)))
    case Linked(name, id) =>
      (s.(twice := s.twice - {id}), x.(pc := Published(name, id)))
    case Rename(m) =>
      if m.name !in s.at then (s, if m.own then AfterRemoval(x, m) else FailRemoval(x, m))
      else (s.(at := s.at - {m.name}), x.SetMine(m.name, None).(pc := CheckAside(m, s.at[m.name])))
    case PutBack(m, file) =>
      (s.(at := s.at[m.name := file]), FailRemoval(x, m))
    case _ => (s, Read(s, x, giveUp))
  }

  datatype Choice = Move(actor: Actor, giveUp: bool) | Die(pid: Pid)

  /** A process may die unless one of its files is at the reclaimer's name. */
  predicate MayDie(s: Shared, p: Pid) {
    ReclaimerName in s.at && s.at[ReclaimerName] < |s.owner| && s.owner[s.at[ReclaimerName]] in s.pid ==>
      s.pid[s.owner[s.at[ReclaimerName]]] != p
  }

  function Next(s: State, c: Choice): State {
    match c
    case Move(a, giveUp) =>
      if a !in s.locals then s
      else
        var after := Act(s.shared, a, s.locals[a], giveUp);
        State(after.0, s.locals[a := after.1])
    case Die(p) =>
      if !MayDie(s.shared, p) then s
      else State(s.shared.(alive := s.shared.alive - {p}),
                 map a | a in s.locals :: if a in s.shared.pid && s.shared.pid[a] == p then Local(Dead, None, None) else s.locals[a])
  }

  /** No lock file, and every actor about to begin. */
  function Initial(pid: map<Actor, Pid>): State {
    State(Shared(map[], {}, {}, [], pid, pid.Values), map a | a in pid :: Local(Idle, None, None))
  }

  function Execute(s: State, schedule: seq<Choice>): State {
    if schedule == [] then s else Next(Execute(s, schedule[..|schedule| - 1]), schedule[|schedule| - 1])
  }

  // ---- What every step keeps ----

  /** The actor's files are where it put them. */
  ghost predicate Keeps(s: Shared, a: Actor, name: Name, mine: Option<FileId>) {
    mine.Some? ==> name in s.at && s.at[name] == mine.value && s.Alive(mine.value) && s.owner[mine.value] == a
  }

  /** A file that was published once and is not at that name any more. */
  predicate Gone(s: Shared, name: Name, id: FileId) {
    id in s.linked && (name in s.at ==> s.at[name] != id)
  }

  /** Only a holder of the reclaimer publishes or evicts at the lock's name. */
  predicate Entitled(x: Local, name: Name) {
    x.lock.None? && (x.reclaimer.Some? <==> name == LockName)
  }

  ghost predicate TurnOk(s: Shared, name: Name, turn: Turn) {
    match turn
    case First => true
    case Confirm(o) => name == LockName && o.disposition.Stale? && o.id in s.linked && !s.Alive(o.id)
    case Remove(o) =>
      if name == LockName then o.disposition.Stale? && o.id in s.linked && !s.Alive(o.id) else Gone(s, ReclaimerName, o.id)
  }

  /** The file an inspection saw: at the lock's name no other file can have taken its place. */
  ghost predicate ViewedOk(s: Shared, name: Name, turn: Turn, id: FileId) {
    && id in s.linked
    && (name == LockName && name in s.at ==> s.at[name] == id)
    && (name == ReclaimerName && turn.Remove? ==> id != turn.seen.id)
  }

  ghost predicate RemovalOk(s: Shared, x: Local, m: Removal) {
    if m.own then x.Mine(m.name) == Some(m.id) && m.handle == m.id && (m.name == LockName ==> x.reclaimer.None?)
    else m.name == LockName && Entitled(x, LockName) && m.id in s.linked && !s.Alive(m.id)
  }

  predicate MovedOk(x: Local, m: Removal) {
    && m.handle == m.id
    && if m.own then x.Mine(m.name).None? && (m.name == LockName ==> x.reclaimer.None?)
       else m.name == LockName && Entitled(x, LockName)
  }

  ghost predicate PcOk(s: Shared, a: Actor, x: Local) {
    match x.pc
    case Idle => x.lock.None? && x.reclaimer.None?
    case Dead => x.lock.None? && x.reclaimer.None?
    case Holding => x.lock.Some? && x.reclaimer.None?
    case Start(name) => Entitled(x, name)
    case Candidate(name, id) => Entitled(x, name) && id < |s.owner| && s.owner[id] == a && id !in s.linked
    case Linked(name, id) => x.Mine(name) == Some(id) && (name == LockName <==> x.lock.Some?) && x.reclaimer.Some?
    case Published(name, id) =>
      x.Mine(name) == Some(id) && (name == LockName <==> x.lock.Some?) && x.reclaimer.Some? && id !in s.twice
    case Reopened(name, id, handle) =>
      x.Mine(name) == Some(id) && (name == LockName <==> x.lock.Some?) && x.reclaimer.Some? && id !in s.twice && handle == id
    case Look(name, turn) => Entitled(x, name) && TurnOk(s, name, turn)
    case Viewed(name, turn, id) => Entitled(x, name) && TurnOk(s, name, turn) && ViewedOk(s, name, turn, id)
    case Opened(name, turn, id, handle) =>
      && Entitled(x, name) && TurnOk(s, name, turn) && ViewedOk(s, name, turn, id) && handle in s.linked
      && (handle != id ==> name == ReclaimerName && Gone(s, name, id))
    case Evict(name, id) => name == LockName && Entitled(x, name) && id in s.linked && !s.Alive(id)
    case Check(m) => RemovalOk(s, x, m)
    case Rename(m) => RemovalOk(s, x, m) && m.handle == m.id && m.name in s.at && s.at[m.name] == m.id
    case CheckAside(m, file) => MovedOk(x, m) && file == m.id
    case Unlink(m) => MovedOk(x, m)
    case _ => false
  }

  ghost predicate LocalOk(s: Shared, a: Actor, x: Local) {
    && a in s.pid && (!x.pc.Dead? ==> s.pid[a] in s.alive)
    && Keeps(s, a, LockName, x.lock) && Keeps(s, a, ReclaimerName, x.reclaimer)
    && PcOk(s, a, x)
  }

  ghost predicate SharedOk(s: Shared) {
    && s.Wf()
    && (ReclaimerName in s.at ==> s.Alive(s.at[ReclaimerName]))
  }

  /** A lock file that still has two names is just being published. */
  ghost predicate TwiceOk(s: State)
    requires s.shared.Wf()
  {
    LockName in s.shared.at && s.shared.at[LockName] in s.shared.twice ==>
      var a := s.shared.owner[s.shared.at[LockName]];
      a in s.locals && s.locals[a].pc == Linked(LockName, s.shared.at[LockName])
  }

  ghost predicate Inv(s: State) {
    && SharedOk(s.shared) && TwiceOk(s)
    && forall a :: a in s.locals ==> LocalOk(s.shared, a, s.locals[a])
  }

  /** An inspection's last step: only a dead owner's file at the lock's name is ever evicted. */
  lemma ObservedKeeps(s: Shared, a: Actor, x: Local, giveUp: bool)
    requires SharedOk(s) && LocalOk(s, a, x) && x.pc.Opened?
    ensures LocalOk(s, a, Read(s, x, giveUp))
  {
    var id := x.pc.id;
    if x.pc.name == ReclaimerName && !(x.pc.handle == id && s.Alive(id)) { assert Gone(s, ReclaimerName, id); }
  }

  lemma LookKeeps(s: Shared, a: Actor, x: Local, giveUp: bool)
    requires SharedOk(s) && LocalOk(s, a, x) && (x.pc.Look? || x.pc.Viewed?)
    ensures LocalOk(s, a, Read(s, x, giveUp))
  {
  }

  lemma RemovalKeeps(s: Shared, a: Actor, x: Local, giveUp: bool)
    requires SharedOk(s) && LocalOk(s, a, x) && (x.pc.Evict? || x.pc.Check? || x.pc.CheckAside? || x.pc.Unlink?)
    ensures LocalOk(s, a, Read(s, x, giveUp))
  {
  }

  lemma ReadKeeps(s: Shared, a: Actor, x: Local, giveUp: bool)
    requires SharedOk(s) && LocalOk(s, a, x)
    requires x.pc.Idle? || x.pc.Dead? || x.pc.Holding? || x.pc.Published? || x.pc.Reopened?
    ensures LocalOk(s, a, Read(s, x, giveUp))
  {
  }

  lemma PublishKeeps(s: Shared, a: Actor, x: Local, giveUp: bool)
    requires SharedOk(s) && LocalOk(s, a, x) && (x.pc.Start? || x.pc.Candidate? || x.pc.Linked?)
    ensures var after := Act(s, a, x, giveUp); SharedOk(after.0) && LocalOk(after.0, a, after.1)
  {
  }

  lemma RenameKeeps(s: Shared, a: Actor, x: Local, giveUp: bool)
    requires SharedOk(s) && LocalOk(s, a, x) && x.pc.Rename?
    ensures var after := Act(s, a, x, giveUp); SharedOk(after.0) && LocalOk(after.0, a, after.1)
  {
  }

  /** A step of an actor keeps its own part. */
  lemma ActKeeps(s: Shared, a: Actor, x: Local, giveUp: bool)
    requires SharedOk(s) && LocalOk(s, a, x)
    ensures var after := Act(s, a, x, giveUp); SharedOk(after.0) && LocalOk(after.0, a, after.1)
  {
    match x.pc
    case Start(_) | Candidate(_, _) | Linked(_, _) => PublishKeeps(s, a, x, giveUp);
    case Rename(_) => RenameKeeps(s, a, x, giveUp);
    case Opened(_, _, _, _) => ObservedKeeps(s, a, x, giveUp);
    case Look(_, _) | Viewed(_, _, _) => LookKeeps(s, a, x, giveUp);
    case Evict(_, _) | Check(_) | CheckAside(_, _) | Unlink(_) => RemovalKeeps(s, a, x, giveUp);
    case _ => ReadKeeps(s, a, x, giveUp);
  }

  /** A step of one actor keeps the part of every other. */
  lemma ActKeepsOthers(s: Shared, a: Actor, x: Local, giveUp: bool, b: Actor, y: Local)
    requires SharedOk(s) && LocalOk(s, a, x) && LocalOk(s, b, y) && a != b
    ensures LocalOk(Act(s, a, x, giveUp).0, b, y)
  {
    match x.pc
    case Candidate(_, _) => LinkKeepsOthers(s, a, x, giveUp, b, y);
    case Rename(_) => RenameKeepsOthers(s, a, x, giveUp, b, y);
    case _ =>
  }

  lemma LinkKeepsOthers(s: Shared, a: Actor, x: Local, giveUp: bool, b: Actor, y: Local)
    requires SharedOk(s) && LocalOk(s, a, x) && LocalOk(s, b, y) && a != b && x.pc.Candidate?
    ensures LocalOk(Act(s, a, x, giveUp).0, b, y)
  {
  }

  lemma RenameKeepsOthers(s: Shared, a: Actor, x: Local, giveUp: bool, b: Actor, y: Local)
    requires SharedOk(s) && LocalOk(s, a, x) && LocalOk(s, b, y) && a != b && x.pc.Rename?
    ensures LocalOk(Act(s, a, x, giveUp).0, b, y)
  {
  }

  lemma DieKeeps(s: Shared, p: Pid, a: Actor, x: Local)
    requires SharedOk(s) && MayDie(s, p) && LocalOk(s, a, x) && s.pid[a] != p
    ensures LocalOk(s.(alive := s.alive - {p}), a, x)
  {
  }

  lemma NextKeeps(s: State, c: Choice)
    requires Inv(s)
    ensures Inv(Next(s, c))
  {
    var after := Next(s, c);
    match c
    case Move(a, giveUp) =>
      if a in s.locals {
        var x := s.locals[a];
        ActKeeps(s.shared, a, x, giveUp);
        forall b | b in s.locals && b != a ensures LocalOk(after.shared, b, s.locals[b]) {
          ActKeepsOthers(s.shared, a, x, giveUp, b, s.locals[b]);
        }
        TwiceKeeps(s, a, giveUp);
      }
    case Die(p) =>
      if MayDie(s.shared, p) {
        forall a | a in s.locals ensures LocalOk(after.shared, a, after.locals[a]) {
          if s.shared.pid[a] != p { DieKeeps(s.shared, p, a, s.locals[a]); }
        }
      }
  }

  lemma TwiceKeeps(s: State, a: Actor, giveUp: bool)
    requires Inv(s) && a in s.locals && Next(s, Move(a, giveUp)).shared.Wf()
    ensures TwiceOk(Next(s, Move(a, giveUp)))
  {
    assert LocalOk(s.shared, a, s.locals[a]);
    assert s.locals[a].pc.Candidate? || s.locals[a].pc.Rename? || s.locals[a].pc.PutBack?
           || Act(s.shared, a, s.locals[a], giveUp).0.at == s.shared.at;
  }

  lemma {:induction false} ExecuteKeeps(s: State, schedule: seq<Choice>)
    requires Inv(s)
    ensures Inv(Execute(s, schedule))
  {
    if schedule != [] {
      ExecuteKeeps(s, schedule[..|schedule| - 1]);
      NextKeeps(Execute(s, schedule[..|schedule| - 1]), schedule[|schedule| - 1]);
    }
  }

  /**
   Mutual exclusion: in every state that any actors in any processes can reach, at most one of
   them holds the history lock, its process is alive and its file is at the lock's name.
   */
  lemma AtMostOneHolder(pid: map<Actor, Pid>, schedule: seq<Choice>)
    ensures var s := Execute(Initial(pid), schedule);
            forall a :: a in s.locals && s.locals[a].pc.Holding? ==>
              && a in s.shared.pid && s.shared.pid[a] in s.shared.alive && LockName in s.shared.at
              && s.locals[a].lock == Some(s.shared.at[LockName])
              && forall b :: b in s.locals && s.locals[b].pc.Holding? ==> a == b
  {
    assert Inv(Initial(pid));
    ExecuteKeeps(Initial(pid), schedule);
  }

  // ---- An abandoned lock does not block ----

  /** `n` steps of one actor while no other moves. */
  function Solo(s: Shared, a: Actor, x: Local, n: nat): (Shared, Local)
    decreases n
  {
    if n == 0 then (s, x)
    else var after := Act(s, a, x, false); Solo(after.0, a, after.1, n - 1)
  }

  lemma {:induction false} SoloSplit(s: Shared, a: Actor, x: Local, n: nat, m: nat)
    ensures Solo(s, a, x, n + m) == var mid := Solo(s, a, x, n); Solo(mid.0, a, mid.1, m)
    decreases n
  {
    if n > 0 {
      var after := Act(s, a, x, false);
      SoloSplit(after.0, a, after.1, n - 1, m);
    }
  }

  /** Publishing at a free name takes four steps, and the fifth finds the file unchanged. */
  lemma SoloPublishes(s: Shared, a: Actor, x: Local)
    requires s.Wf() && x.pc.Start? && x.pc.name !in s.at
    ensures var id := |s.owner|;
            Solo(s, a, x, 5) ==
              var s' := s.(owner := s.owner + [a], at := s.at[x.pc.name := id], linked := s.linked + {id}, twice := s.twice - {id});
              (s', Read(s', x.SetMine(x.pc.name, Some(id)).(pc := Reopened(x.pc.name, id, id)), false))
  {
    var s0, x0 := s, x;
    var (s1, x1) := Act(s0, a, x0, false);
    var (s2, x2) := Act(s1, a, x1, false);
    var (s3, x3) := Act(s2, a, x2, false);
    var (s4, x4) := Act(s3, a, x3, false);
    var (s5, x5) := Act(s4, a, x4, false);
    assert s3.twice == s.twice - {|s.owner|};
    assert Solo(s0, a, x0, 5) == Solo(s1, a, x1, 4) == Solo(s2, a, x2, 3) == Solo(s3, a, x3, 2) == Solo(s4, a, x4, 1) == (s5, x5);
  }

  /** Removing a file that is still there takes four steps. */
  lemma SoloRemoves(s: Shared, a: Actor, x: Local)
    requires x.pc.Check? && x.pc.m.handle == x.pc.m.id && x.pc.m.name in s.at && s.at[x.pc.m.name] == x.pc.m.id
    ensures Solo(s, a, x, 4) == (s.(at := s.at - {x.pc.m.name}), AfterRemoval(x.SetMine(x.pc.m.name, None), x.pc.m))
  {
    var (s1, x1) := Act(s, a, x, false);
    var (s2, x2) := Act(s1, a, x1, false);
    var (s3, x3) := Act(s2, a, x2, false);
    var (s4, x4) := Act(s3, a, x3, false);
    assert Solo(s, a, x, 4) == Solo(s1, a, x1, 3) == Solo(s2, a, x2, 2) == Solo(s3, a, x3, 1) == (s4, x4);
  }

  /** One undisturbed inspection of a dead owner's file. */
  lemma SoloInspects(s: Shared, a: Actor, x: Local)
    requires x.pc.Look? && x.pc.name in s.at && s.at[x.pc.name] !in s.twice && !s.Alive(s.at[x.pc.name])
    ensures Solo(s, a, x, 3) == (s, Observed(x, x.pc.name, x.pc.turn, Observation(Stale, s.at[x.pc.name]), false))
  {
    var (s1, x1) := Act(s, a, x, false);
    var (s2, x2) := Act(s1, a, x1, false);
    var (s3, x3) := Act(s2, a, x2, false);
    assert Solo(s, a, x, 3) == Solo(s1, a, x1, 2) == Solo(s2, a, x2, 1) == (s3, x3);
  }

  /** Three inspections and a removal clear a dead owner's lock. */
  lemma SoloEvicts(s: Shared, a: Actor, x: Local)
    requires x.pc == Look(LockName, First) && LockName in s.at && s.at[LockName] !in s.twice && !s.Alive(s.at[LockName])
    requires x.lock.None?
    ensures Solo(s, a, x, 14) == (s.(at := s.at - {LockName}), x.(pc := Start(LockName)))
  {
    var o := Observation(Stale, s.at[LockName]);
    SoloInspects(s, a, x);
    var x1 := x.(pc := Look(LockName, Confirm(o)));
    SoloInspects(s, a, x1);
    var x2 := x.(pc := Look(LockName, Remove(o)));
    SoloInspects(s, a, x2);
    var x3 := x.(pc := Evict(LockName, o.id));
    var x4 := x.(pc := Check(Removal(LockName, o.id, o.id, false)));
    assert Solo(s, a, x3, 1) == Act(s, a, x3, false) == (s, x4);
    SoloRemoves(s, a, x4);
    SoloSplit(s, a, x, 3, 11);
    SoloSplit(s, a, x1, 3, 8);
    SoloSplit(s, a, x2, 3, 5);
    SoloSplit(s, a, x3, 1, 4);
    assert x.SetMine(LockName, None) == x;
  }

  /**
   In every reachable state in which the reclaimer is free and the lock is free or its owner
   dead, an idle live actor that runs alone gets the lock, by publishing a file of its own.
   */
  lemma AbandonedLockIsTaken(pid: map<Actor, Pid>, schedule: seq<Choice>, a: Actor) returns (n: nat)
    requires var s := Execute(Initial(pid), schedule);
             && a in s.locals && s.locals[a].pc.Idle? && ReclaimerName !in s.shared.at
             && (LockName in s.shared.at ==> !s.shared.Alive(s.shared.at[LockName]))
    ensures var s := Execute(Initial(pid), schedule);
            var after := Solo(s.shared, a, s.locals[a], n);
            && after.1.pc.Holding? && after.1.lock == Some(|s.shared.owner| + 1)
            && after.0.at == map[LockName := |s.shared.owner| + 1]
  {
    var state := Execute(Initial(pid), schedule);
    assert Inv(Initial(pid));
    ExecuteKeeps(Initial(pid), schedule);
    var s, x := state.shared, state.locals[a];
    assert LocalOk(s, a, x);
    n := SoloAcquires(s, a, x);
  }

  lemma OnlyKey(m: map<Name, FileId>, name: Name)
    requires name in m && forall other :: other in m ==> other == name
    ensures m == map[name := m[name]]
  {
  }

  /** Getting the reclaimer and clearing the lock's name. */
  lemma SoloClears(s: Shared, a: Actor, x: Local) returns (n: nat)
    requires SharedOk(s) && LocalOk(s, a, x) && x.pc.Idle? && ReclaimerName !in s.at
    requires LockName in s.at ==> !s.Alive(s.at[LockName]) && s.at[LockName] !in s.twice
    ensures var after := Solo(s, a, x, n);
            && after.1 == Local(Start(LockName), None, Some(|s.owner|)) && after.0.at == map[ReclaimerName := |s.owner|]
            && after.0.Wf() && |after.0.owner| == |s.owner| + 1
  {
    var r := |s.owner|;
    var x1 := x.(pc := Start(ReclaimerName));
    SoloPublishes(s, a, x1);
    var s2 := s.(owner := s.owner + [a], at := s.at[ReclaimerName := r], linked := s.linked + {r}, twice := s.twice - {r});
    var x2 := Local(Look(LockName, First), None, Some(r));
    SoloSplit(s, a, x, 1, 5);
    assert Solo(s, a, x, 6) == (s2, x2);
    var k: nat;
    if LockName in s.at {
      k := 14;
      SoloEvicts(s2, a, x2);
      OnlyKey(s2.at - {LockName}, ReclaimerName);
    } else {
      k := 1;
      OnlyKey(s2.at, ReclaimerName);
      assert Solo(s2, a, x2, 1) == Act(s2, a, x2, false);
    }
    n := 6 + k;
    SoloSplit(s, a, x, 6, k);
  }

  lemma SoloAcquires(s: Shared, a: Actor, x: Local) returns (n: nat)
    requires SharedOk(s) && LocalOk(s, a, x) && x.pc.Idle? && ReclaimerName !in s.at
    requires LockName in s.at ==> !s.Alive(s.at[LockName]) && s.at[LockName] !in s.twice
    ensures var after := Solo(s, a, x, n);
            && after.1.pc.Holding? && after.1.lock == Some(|s.owner| + 1) && after.0.at == map[LockName := |s.owner| + 1]
  {
    hide SharedOk, LocalOk;
    var r := |s.owner|;
    var k := SoloClears(s, a, x);
    var (s3, x3) := Solo(s, a, x, k);
    SoloPublishes(s3, a, x3);
    var (s4, x4) := Solo(s3, a, x3, 5);
    assert x4 == Local(Own(ReclaimerName, r), Some(r + 1), Some(r));
    SoloRemoves(s4, a, x4);
    OnlyKey(s4.at - {ReclaimerName}, LockName);
    n := k + (5 + 4);
    SoloSplit(s, a, x, k, 5 + 4);
    SoloSplit(s3, a, x3, 5, 4);
  }
}
