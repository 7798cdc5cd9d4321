/** What can hold the server up. A client that answers neither recv nor send
    keeps its worker inside the mutex; nothing else can hold up anything. */
module ServerProgress {
  import opened Bytes
  import opened ServerModel
  import opened ServerLife
  import opened ServerIo
  import opened ServerStatus
  import opened Server
  import opened ServerShutdown
  import RecordLog
  import Reads

  const NOTHING := Broke("")

  /** A worker sits in a recv or send that its silent client does not let return. */
  predicate AwaitsClient(s: State, id: Id) {
    && id in s.workers && id in s.silent
    && var pc := s.workers[id].pc;
       pc.Receiving? || (pc.Sending? && ReadAt(s.io.store, pc.pos) != "")
  }

  /** The thread inside the mutex is such a worker. */
  predicate HeldUp(s: State) {
    match s.io.mutex
    case HeldBy(Client(id)) => AwaitsClient(s, id)
    case _ => false
  }

  /** Only workers and the logger move. */
  ghost predicate Quiet(actions: seq<Action>) {
    forall i :: 0 <= i < |actions| ==> actions[i].WorkerStep? || actions[i].LoggerStep?
  }

  ghost predicate NoAnswer(actions: seq<Action>) {
    forall i :: 0 <= i < |actions| ==> !actions[i].ClientAnswers?
  }

  lemma RunOne(s: State, a: Action)
    ensures Run(s, [a]) == Next(s, a)
  {
    assert [a][1..] == [];
  }

  lemma RunCons(s: State, a: Action, rest: seq<Action>)
    ensures Run(s, [a] + rest) == Run(Next(s, a), rest)
  {
    assert ([a] + rest)[1..] == rest;
  }

  lemma AppendNothing(store: Store)
    ensures Append(store, "") == store
  {
    match store
    case File(bytes) => assert bytes + "" == bytes;
    case Device(log) => assert log.staged + "" == log.staged;
  }

  // ----- Nothing deadlocks but for a silent client -----

  /** No choice of answers lets any thread of the server take a step. */
  ghost predicate AllBlocked(s: State) {
    && (forall accept, ok :: StepMain(s, accept, ok).None?)
    && (forall id, answer :: StepWorker(s, id, answer).None?)
    && (forall line, ok :: StepLogger(s, line, ok).None?)
  }

  /** Main is in the final join, one worker awaits its silent client inside the
      mutex, and everyone else has ended or waits for the mutex or a wake-up. */
  ghost predicate StuckBehindClient(s: State) {
    && s.life.main.Joining? && s.life.main.todo != [] && s.life.main.todo[0] in s.workers
    && s.workers[s.life.main.todo[0]].pc != Exited
    && HeldUp(s)
    && (forall id: Id :: id in s.workers && s.io.mutex != HeldBy(Client(id)) ==>
          var pc := s.workers[id].pc; pc == Exited || pc == LockingReceive || pc == LockingSend)
    && (s.shut.logger == Stopped || s.shut.logger == Locking || Asleep(s))
  }

  lemma BlockedMain(s: State)
    requires Inv(s) && s.life.main != Done && forall accept, ok :: StepMain(s, accept, ok).None?
    ensures Todo(s.life.main) != [] && Todo(s.life.main)[0] in s.workers
    ensures s.workers[Todo(s.life.main)[0]].pc != Exited
    ensures s.life.main.Joining? || s.life.main.SweepJoining?
  {
    InvDefines(s);
    assert StepMain(s, TimedOut, false).None?;
  }

  /** A worker can take no step exactly when it has exited, waits for the taken
      mutex, or awaits its silent client. */
  lemma WorkerBlocked(s: State, id: Id)
    requires Defined(s) && id in s.workers
    ensures var pc := s.workers[id].pc;
      var blocked := pc == Exited || ((pc == LockingReceive || pc == LockingSend) && s.io.mutex != Free) || AwaitsClient(s, id);
      && (blocked <==> StepWorker(s, id, NOTHING).None?)
      && (blocked ==> forall answer :: StepWorker(s, id, answer).None?)
  {
  }

  /** The mutex is taken by a worker inside a locked stretch, or by the logger in its own. */
  lemma HolderIs(s: State)
    requires MutexInv(s.io, s.workers, s.shut.logger)
    ensures match s.io.mutex
      case Free => true
      case HeldBy(Logger) => LoggerHolds(s.shut.logger)
      case HeldBy(Client(id)) => id in s.workers && Holds(s.workers[id].pc)
    ensures forall id: Id :: AwaitsClient(s, id) ==> s.io.mutex == HeldBy(Client(id))
  {
  }

  lemma SweepNotBlocked(s: State)
    requires StatusInv(s.life, s.workers) && Defined(s) && s.life.main.SweepJoining?
    ensures !AllBlocked(s)
  {
    SweepNeverHeldUp(s, NOTHING);
  }

  lemma BlockedJoins(s: State)
    requires Inv(s) && s.life.main != Done && AllBlocked(s)
    ensures s.life.main.Joining? && s.life.main.todo != [] && s.life.main.todo[0] in s.workers
    ensures s.workers[s.life.main.todo[0]].pc != Exited
  {
    BlockedMain(s);
    InvDefines(s);
    if s.life.main.SweepJoining? {
      SweepNotBlocked(s);
    }
  }

  /** A blocked worker that has not exited has the mutex, or someone blocked has. */
  lemma BlockedHeldUp(s: State, id: Id)
    requires Defined(s) && MutexInv(s.io, s.workers, s.shut.logger)
    requires AllBlocked(s) && id in s.workers && s.workers[id].pc != Exited
    ensures HeldUp(s)
  {
    HolderIs(s);
    WorkerBlocked(s, id);
    assert StepLogger(s, "", true).None?;
    match s.io.mutex
    case HeldBy(Client(holder)) => WorkerBlocked(s, holder);
    case _ =>
  }

  lemma OthersWait(s: State)
    requires Defined(s) && MutexInv(s.io, s.workers, s.shut.logger) && AllBlocked(s)
    ensures forall id: Id :: id in s.workers && s.io.mutex != HeldBy(Client(id)) ==>
              var pc := s.workers[id].pc; pc == Exited || pc == LockingReceive || pc == LockingSend
    ensures s.shut.logger == Stopped || s.shut.logger == Locking || Asleep(s)
  {
    HolderIs(s);
    forall id: Id | id in s.workers && s.io.mutex != HeldBy(Client(id))
      ensures var pc := s.workers[id].pc; pc == Exited || pc == LockingReceive || pc == LockingSend
    {
      WorkerBlocked(s, id);
    }
    assert StepLogger(s, "", true).None?;
  }

  lemma BlockedIsStuck(s: State)
    requires Inv(s) && s.life.main != Done && AllBlocked(s)
    ensures StuckBehindClient(s)
  {
    InvDefines(s);
    BlockedJoins(s);
    BlockedHeldUp(s, s.life.main.todo[0]);
    OthersWait(s);
  }

  lemma StuckIsBlocked(s: State)
    requires Defined(s) && StuckBehindClient(s)
    ensures AllBlocked(s)
  {
    forall id, answer
      ensures StepWorker(s, id, answer).None?
    {
      if id in s.workers {
        WorkerBlocked(s, id);
      }
    }
  }

  /** While the application has not ended, no thread can take a step exactly when
      everything has run into one silent client: threads never deadlock among themselves. */
  lemma AllBlockedIff(s: State)
    requires Inv(s) && s.life.main != Done
    ensures AllBlocked(s) <==> StuckBehindClient(s)
  {
    if AllBlocked(s) {
      BlockedIsStuck(s);
    }
    if StuckBehindClient(s) {
      InvDefines(s);
      StuckIsBlocked(s);
    }
  }

  // ----- Getting the mutex -----

  /** What leaving the mutex leaves as it was. */
  ghost predicate OnlyReleased(s: State, t: State) {
    && t.io.mutex == Free && t.io.store == s.io.store
    && t.life == s.life && t.silent == s.silent
    && t.shut == s.shut.(logger := if LoggerHolds(s.shut.logger) then Waiting else s.shut.logger)
    && t.workers.Keys == s.workers.Keys
    && (forall id: Id :: id in s.workers && !Holds(s.workers[id].pc) ==> t.workers[id] == s.workers[id])
    && (forall id: Id :: id in s.workers && Holds(s.workers[id].pc) ==> Released(s.workers[id].pc, t.workers[id].pc))
  }

  /** Where a locked stretch can end: in the second one's beginning or on the way out. */
  predicate Released(before: WorkerPc, after: WorkerPc) {
    after.Closing? || (before == Received(true) && after == LockingSend)
  }

  lemma LoggerReleases(s: State) returns (actions: seq<Action>)
    requires MutexInv(s.io, s.workers, s.shut.logger) && s.io.mutex == HeldBy(Logger)
    ensures Quiet(actions) && OnlyReleased(s, Run(s, actions))
  {
    HolderIs(s);
    AppendNothing(s.io.store);
    var a := LoggerStep("", true);
    var t := Next(s, a);
    if s.shut.logger == Unlocking {
      RunOne(s, a);
      actions := [a];
    } else {
      RunCons(s, a, [a]);
      RunOne(t, a);
      actions := [a] + [a];
    }
  }

  lemma HolderLeaves(s: State, id: Id)
    requires MutexInv(s.io, s.workers, s.shut.logger) && s.io.mutex == HeldBy(Client(id))
    requires s.workers[id].pc.Received? || s.workers[id].pc.Sent?
    ensures OnlyReleased(s, Next(s, WorkerStep(id, NOTHING)))
  {
  }

  lemma HolderGivesUp(s: State, id: Id)
    requires MutexInv(s.io, s.workers, s.shut.logger) && Defined(s) && s.io.mutex == HeldBy(Client(id))
    requires s.workers[id].pc.Receiving? || s.workers[id].pc.Sending?
    requires !AwaitsClient(s, id)
    ensures var t := Next(s, WorkerStep(id, NOTHING));
      && t.io.mutex == s.io.mutex && t.io.store == s.io.store
      && t.life == s.life && t.silent == s.silent && t.shut == s.shut
      && id in t.workers && t.workers == s.workers[id := t.workers[id]]
      && (t.workers[id].pc == Received(false) || t.workers[id].pc.Sent?)
  {
    AppendNothing(s.io.store);
  }

  /** The worker inside the mutex leaves: a recv or send it is in is answered by a failure. */
  lemma ClientReleases(s: State, id: Id) returns (actions: seq<Action>)
    requires MutexInv(s.io, s.workers, s.shut.logger) && Defined(s)
    requires s.io.mutex == HeldBy(Client(id)) && !AwaitsClient(s, id)
    ensures Quiet(actions) && OnlyReleased(s, Run(s, actions))
  {
    HolderIs(s);
    var a := WorkerStep(id, NOTHING);
    if s.workers[id].pc.Received? || s.workers[id].pc.Sent? {
      HolderLeaves(s, id);
      RunOne(s, a);
      actions := [a];
    } else {
      HolderGivesUp(s, id);
      HolderLeaves(Next(s, a), id);
      RunCons(s, a, [a]);
      RunOne(Next(s, a), a);
      actions := [a] + [a];
    }
  }

  /** Unless its holder awaits a silent client, the mutex can become free by the
      holder's own steps alone. */
  lemma ReleaseMutex(s: State) returns (actions: seq<Action>)
    requires MutexInv(s.io, s.workers, s.shut.logger) && Defined(s) && !HeldUp(s)
    ensures Quiet(actions) && OnlyReleased(s, Run(s, actions))
  {
    HolderIs(s);
    match s.io.mutex
    case Free => actions := [];
    case HeldBy(Logger) => actions := LoggerReleases(s);
    case HeldBy(Client(id)) => actions := ClientReleases(s, id);
  }

  lemma NextHeldUp(s: State, a: Action)
    requires MutexInv(s.io, s.workers, s.shut.logger) && JoinsInv(s.life, s.workers)
    requires HeldUp(s) && !a.ClientAnswers?
    ensures HeldUp(Next(s, a))
  {
    HolderIs(s);
    if a.MainStep? && Step(s, a).Some? {
      MainEffect(s, a.accept, a.ok);
    }
  }

  lemma {:induction false} RunHeldUp(s: State, actions: seq<Action>)
    requires Inv(s) && HeldUp(s) && NoAnswer(actions)
    ensures HeldUp(Run(s, actions))
    decreases |actions|
  {
    if actions != [] {
      NextKeeps(s, actions[0]);
      NextHeldUp(s, actions[0]);
      assert NoAnswer(actions[1..]);
      RunHeldUp(Next(s, actions[0]), actions[1..]);
    }
  }

  /** While clients that are silent stay silent, the mutex can ever become free
      exactly when its holder does not await one of them. */
  lemma MutexAvailableIff(s: State)
    requires Inv(s)
    ensures (exists actions :: NoAnswer(actions) && Run(s, actions).io.mutex == Free) <==> !HeldUp(s)
  {
    InvDefines(s);
    if !HeldUp(s) {
      var actions := ReleaseMutex(s);
      assert NoAnswer(actions) && Run(s, actions).io.mutex == Free;
    } else {
      forall actions | NoAnswer(actions)
        ensures Run(s, actions).io.mutex != Free
      {
        RunHeldUp(s, actions);
      }
    }
  }
}
