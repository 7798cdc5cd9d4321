/** Whether the server can still come to its end: from any reachable state it
    can, unless a client that stays silent is still to be received from or sent to. */
module ServerFinish {
  import opened Bytes
  import opened ServerModel
  import opened ServerLife
  import opened ServerIo
  import opened Server
  import opened ServerShutdown
  import opened ServerProgress
  import RecordLog
  import Reads

  /** A worker has a recv or a send before it, whatever happens. */
  predicate Needs(pc: WorkerPc, store: Store) {
    match pc
    case Starting => true
    case LockingReceive => true
    case Receiving => true
    case Received(ok) => ok && ReadAt(store, 0) != ""
    case LockingSend => ReadAt(store, 0) != ""
    case Sending(pos) => ReadAt(store, pos) != ""
    case _ => false
  }

  predicate Lacks(s: State, id: Id) {
    id in s.workers && id in s.silent && Needs(s.workers[id].pc, s.io.store)
  }

  // ----- A client that stays silent is waited for -----

  /** What can be read once can always be read. */
  lemma StaysReadable(store: Store, bytes: string)
    requires ReadAt(store, 0) != ""
    ensures ReadAt(Append(store, bytes), 0) != ""
  {
    if store.Device? && RecordLog.HasNewline(bytes) {
      var records, record := store.log.records, store.log.staged + bytes;
      var seen := LastN(records + [record], RecordLog.KEPT);
      assert seen == seen[..|seen| - 1] + [record];
      FlattenSnoc(seen[..|seen| - 1], record);
    }
  }

  /** The file changes only while nobody is between receiving and being served. */
  lemma StoreStep(s: State, a: Action)
    requires Step(s, a).Some?
    ensures var t := Step(s, a).value;
      || t.io.store == s.io.store
      || (exists bytes :: t.io.store == Append(s.io.store, bytes)
            && (s.shut.logger == Logging || (a.WorkerStep? && a.id in s.workers && s.workers[a.id].pc.Receiving?)))
  {
    if a.MainStep? {
      MainEffect(s, a.accept, a.ok);
    } else if a.WorkerStep? && s.workers[a.id].pc.Receiving? {
      assert Step(s, a).value.io.store == Append(s.io.store, BytesIn(a.answer));
    } else if a.LoggerStep? && s.shut.logger == Logging {
      assert Step(s, a).value.io.store == Append(s.io.store, a.line);
    }
  }

  lemma NextLacks(s: State, a: Action, id: Id)
    requires MutexInv(s.io, s.workers, s.shut.logger) && JoinsInv(s.life, s.workers)
    requires Lacks(s, id) && !a.ClientAnswers?
    ensures Lacks(Next(s, a), id)
  {
    if Step(s, a).Some? {
      if a.MainStep? {
        MainEffect(s, a.accept, a.ok);
      } else if !(a.WorkerStep? && a.id == id) {
        StoreStep(s, a);
        var t, pc := Step(s, a).value, s.workers[id].pc;
        assert t.workers[id] == s.workers[id];
        if t.io.store != s.io.store {
          assert !Holds(pc);
          var bytes :| t.io.store == Append(s.io.store, bytes);
          if pc == LockingSend {
            StaysReadable(s.io.store, bytes);
          }
        }
      }
    }
  }

  lemma {:induction false} RunLacks(s: State, actions: seq<Action>, id: Id)
    requires Inv(s) && Lacks(s, id) && NoAnswer(actions)
    ensures Lacks(Run(s, actions), id)
    decreases |actions|
  {
    if actions != [] {
      NextKeeps(s, actions[0]);
      NextLacks(s, actions[0], id);
      assert NoAnswer(actions[1..]);
      RunLacks(Next(s, actions[0]), actions[1..], id);
    }
  }

  // ----- Everyone else can be brought out -----

  ghost predicate NobodyLacks(s: State) {
    forall id: Id :: !Lacks(s, id)
  }

  /** How many of its own steps a worker is from its exit, at most, when every
      recv and send fails. */
  function StepsToExit(pc: WorkerPc): (n: nat) {
    match pc
    case Starting => 9
    case LockingReceive => 8
    case Receiving => 7
    case Received(ok) => if ok then 6 else 3
    case LockingSend => 5
    case Sending(_) => 4
    case Sent(_) => 3
    case Closing(_) => 2
    case Exiting => 1
    case Exited => 0
  }

  /** What bringing workers on leaves as it was: main, the flag and the silent clients. */
  ghost predicate MainStays(s: State, t: State) {
    && t.life == s.life && t.silent == s.silent && t.workers.Keys == s.workers.Keys
    && t.shut.terminated == s.shut.terminated && t.io.store == s.io.store
  }

  lemma NoneHeldUp(s: State)
    requires NobodyLacks(s)
    ensures !HeldUp(s)
  {
    if HeldUp(s) {
      assert Lacks(s, s.io.mutex.owner.id);
    }
  }

  lemma ReleasedLacks(s: State, t: State)
    requires NobodyLacks(s) && OnlyReleased(s, t)
    ensures NobodyLacks(t)
  {
    forall id: Id
      ensures !Lacks(t, id)
    {
      assert !Lacks(s, id);
    }
  }

  /** With the mutex free, or no need of it, a worker nobody keeps waiting takes a step. */
  lemma WorkerStepsOn(s: State, id: Id)
    requires Defined(s) && NobodyLacks(s) && id in s.workers && s.workers[id].pc != Exited
    requires s.workers[id].pc == LockingReceive || s.workers[id].pc == LockingSend ==> s.io.mutex == Free
    ensures var t := Next(s, WorkerStep(id, NOTHING));
      MainStays(s, t) && NobodyLacks(t) && StepsToExit(t.workers[id].pc) < StepsToExit(s.workers[id].pc)
  {
    AppendNothing(s.io.store);
    var t := Next(s, WorkerStep(id, NOTHING));
    assert !Lacks(s, id);
    forall other: Id
      ensures !Lacks(t, other)
    {
      assert !Lacks(s, other);
    }
  }

  predicate AtLock(pc: WorkerPc) {
    pc == LockingReceive || pc == LockingSend
  }

  /** The way is cleared for a worker that comes to a lock. */
  lemma ClearWay(s: State, id: Id) returns (actions: seq<Action>)
    requires Defined(s) && MutexInv(s.io, s.workers, s.shut.logger) && NobodyLacks(s) && id in s.workers
    ensures NoAnswer(actions)
    ensures var t := Run(s, actions);
      && MainStays(s, t) && NobodyLacks(t) && t.workers[id] == s.workers[id]
      && (AtLock(s.workers[id].pc) ==> t.io.mutex == Free)
  {
    actions := [];
    if AtLock(s.workers[id].pc) {
      NoneHeldUp(s);
      actions := ReleaseMutex(s);
      ReleasedLacks(s, Run(s, actions));
    }
  }

  lemma InvParts(s: State)
    requires Inv(s)
    ensures Defined(s) && MutexInv(s.io, s.workers, s.shut.logger)
  {
    InvDefines(s);
  }

  lemma BringOn(s: State, id: Id) returns (actions: seq<Action>)
    requires Inv(s) && NobodyLacks(s) && id in s.workers && s.workers[id].pc != Exited
    ensures NoAnswer(actions)
    ensures var t := Run(s, actions);
      MainStays(s, t) && NobodyLacks(t) && StepsToExit(t.workers[id].pc) < StepsToExit(s.workers[id].pc)
  {
    InvParts(s);
    var first := ClearWay(s, id);
    RunKeeps(s, first);
    InvParts(Run(s, first));
    WorkerStepsOn(Run(s, first), id);
    RunOne(Run(s, first), WorkerStep(id, NOTHING));
    RunConcat(s, first, [WorkerStep(id, NOTHING)]);
    actions := first + [WorkerStep(id, NOTHING)];
  }

  /** A worker nobody keeps waiting can be brought to its exit. */
  lemma {:induction false} BringOut(s: State, id: Id) returns (actions: seq<Action>)
    requires Inv(s) && NobodyLacks(s) && id in s.workers
    ensures NoAnswer(actions)
    ensures var t := Run(s, actions); MainStays(s, t) && NobodyLacks(t) && t.workers[id].pc == Exited
    decreases StepsToExit(s.workers[id].pc)
  {
    actions := [];
    if s.workers[id].pc != Exited {
      var first := BringOn(s, id);
      RunKeeps(s, first);
      var rest := BringOut(Run(s, first), id);
      RunConcat(s, first, rest);
      actions := first + rest;
    }
  }

  const DECLINE := MainStep(Interrupted, false)

  /** Main steps on by itself once the thread it may be joining has exited. */
  lemma MainStepsOn(s: State)
    requires Defined(s) && s.shut.terminated && s.life.main != Done
    ensures Step(s, DECLINE).None? ==> Todo(s.life.main) != [] && Todo(s.life.main)[0] in s.workers
    ensures HasExited(s, Todo(s.life.main)) ==> Step(s, DECLINE).Some?
  {
  }

  lemma DeclineKeepsNeeds(s: State)
    requires NobodyLacks(s)
    ensures NobodyLacks(Next(s, DECLINE))
  {
    if Step(s, DECLINE).Some? {
      MainEffect(s, Interrupted, false);
      forall id: Id
        ensures !Lacks(Next(s, DECLINE), id)
      {
        assert !Lacks(s, id);
      }
    }
  }

  /** The thread main may be joining is brought out. */
  lemma ClearJoin(s: State) returns (actions: seq<Action>)
    requires Inv(s) && s.shut.terminated && NobodyLacks(s) && s.life.main != Done
    ensures NoAnswer(actions)
    ensures var t := Run(s, actions); MainStays(s, t) && NobodyLacks(t) && Step(t, DECLINE).Some?
  {
    InvDefines(s);
    MainStepsOn(s);
    actions := [];
    if Step(s, DECLINE).None? {
      actions := BringOut(s, Todo(s.life.main)[0]);
      RunKeeps(s, actions);
      InvDefines(Run(s, actions));
      MainStepsOn(Run(s, actions));
    }
  }

  lemma FinishOn(s: State) returns (actions: seq<Action>)
    requires Inv(s) && s.shut.terminated && NobodyLacks(s) && s.life.main != Done
    ensures NoAnswer(actions)
    ensures var t := Run(s, actions);
      t.shut.terminated && NobodyLacks(t) && StepsToEnd(t.life) < StepsToEnd(s.life)
  {
    var first := ClearJoin(s);
    var t := Run(s, first);
    RunKeeps(s, first);
    MainTowardsEnd(t, Interrupted, false);
    DeclineKeepsNeeds(t);
    RunOne(t, DECLINE);
    RunConcat(s, first, [DECLINE]);
    actions := first + [DECLINE];
  }

  /** Told to stop, a server that no silent client keeps waiting can end. */
  lemma {:induction false} Finish(s: State) returns (actions: seq<Action>)
    requires Inv(s) && s.shut.terminated && NobodyLacks(s)
    ensures NoAnswer(actions) && Run(s, actions).life.main == Done
    decreases StepsToEnd(s.life)
  {
    actions := [];
    if s.life.main != Done {
      var first := FinishOn(s);
      RunKeeps(s, first);
      var rest := Finish(Run(s, first));
      RunConcat(s, first, rest);
      actions := first + rest;
    }
  }

  lemma FinishFromAnywhere(s: State) returns (actions: seq<Action>)
    requires Inv(s) && NobodyLacks(s)
    ensures NoAnswer(actions) && Run(s, actions).life.main == Done
  {
    var t := Next(s, SignalSet);
    NextKeeps(s, SignalSet);
    forall id: Id
      ensures !Lacks(t, id)
    {
      assert !Lacks(s, id);
    }
    var rest := Finish(t);
    RunCons(s, SignalSet, rest);
    actions := [SignalSet] + rest;
  }

  /** A worker that has a recv or send to come has not exited. */
  lemma LackingKeepsGoing(s: State, actions: seq<Action>, id: Id)
    requires Inv(s) && Lacks(s, id) && NoAnswer(actions)
    ensures Run(s, actions).life.main != Done
  {
    RunLacks(s, actions, id);
    RunKeeps(s, actions);
    InvIsSafe(Run(s, actions));
  }

  ghost predicate CanFinish(s: State) {
    exists actions :: NoAnswer(actions) && Run(s, actions).life.main == Done
  }

  /** From any reachable state the server can come to its end, while silent
      clients stay silent, exactly when none of them has a recv or send to come. */
  lemma CanFinishIff(s: State)
    requires Inv(s)
    ensures CanFinish(s) <==> NobodyLacks(s)
  {
    if NobodyLacks(s) {
      var actions := FinishFromAnywhere(s);
    } else {
      var id: Id :| Lacks(s, id);
      forall actions | NoAnswer(actions)
        ensures Run(s, actions).life.main != Done
      {
        LackingKeepsGoing(s, actions, id);
      }
    }
  }

  /** Every silent client answers again, and nothing else happens. */
  lemma {:induction false} AllAnswer(s: State) returns (actions: seq<Action>)
    ensures Run(s, actions) == s.(silent := {})
    ensures forall i :: 0 <= i < |actions| ==> actions[i].ClientAnswers?
    decreases |s.silent|
  {
    if s.silent == {} {
      return [];
    }
    var id :| id in s.silent;
    var a := ClientAnswers(id);
    assert Next(s, a) == s.(silent := s.silent - {id});
    var rest := AllAnswer(Next(s, a));
    RunCons(s, a, rest);
    actions := [a] + rest;
  }

  lemma NobodySilent(s: State)
    requires s.silent == {}
    ensures NobodyLacks(s)
  {
  }

  /** And if the clients do answer it always can, with everything settled. */
  lemma CanAlwaysFinish(s: State)
    requires Inv(s)
    ensures exists actions :: Run(s, actions).life.main == Done && Settled(Run(s, actions))
  {
    var first := AllAnswer(s);
    var t := Run(s, first);
    NobodySilent(t);
    RunKeeps(s, first);
    var rest := FinishFromAnywhere(t);
    RunConcat(s, first, rest);
    RunKeeps(s, first + rest);
    InvIsSafe(Run(s, first + rest));
  }
}
