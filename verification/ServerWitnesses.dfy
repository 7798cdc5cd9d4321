/** Concrete runs from start-up into the states the other theorems single out. */
module ServerWitnesses {
  import opened ServerModel
  import opened ThreadList
  import opened Server
  import opened ServerShutdown
  import opened ServerProgress
  import opened ServerFinish

  ghost predicate Reach(store: Store, s: State) {
    exists actions :: Run(Initial(store), actions) == s
  }

  lemma ReachInitial(store: Store)
    ensures Reach(store, Initial(store))
  {
    assert Run(Initial(store), []) == Initial(store);
  }

  lemma ReachNext(store: Store, s: State, a: Action)
    requires Reach(store, s)
    ensures Reach(store, Next(s, a))
  {
    var actions :| Run(Initial(store), actions) == s;
    RunConcat(Initial(store), actions, [a]);
    RunOne(s, a);
  }

  const DO_ACCEPT := MainStep(Connected, true)

  lemma By(store: Store, s: State, a: Action) returns (t: State)
    requires Reach(store, s)
    ensures t == Next(s, a) && Reach(store, t)
  {
    ReachNext(store, s, a);
    t := Next(s, a);
  }

  lemma ReachKeeps(store: Store, s: State)
    requires Reach(store, s)
    ensures Inv(s)
  {
    var actions :| Run(Initial(store), actions) == s;
    InitialInv(store);
    RunKeeps(Initial(store), actions);
  }

  /** One client has connected and its worker is about to run. */
  lemma OneClient(store: Store) returns (s: State)
    ensures Reach(store, s)
    ensures s.life.main == LoopHead && s.life.list == [0] && s.workers == map[0 := NEW_WORKER]
    ensures s.io == Initial(store).io && s.shut == Initial(store).shut && s.silent == {}
  {
    ReachInitial(store);
    s := By(store, Initial(store), DO_ACCEPT);
    s := By(store, s, DO_ACCEPT);
    s := By(store, s, DO_ACCEPT);
    assert s.life.main == Linking(0) && s.life.list == [];
    s := By(store, s, DO_ACCEPT);
  }

  lemma WorkerTo(store: Store, s: State, w: Worker, io: Io) returns (t: State)
    requires Reach(store, s) && 0 in s.workers && 0 !in s.silent
    requires StepWorkerIo(s.workers[0], 0, s.io, false, NOTHING) == Some((w, io))
    ensures Reach(store, t) && t == s.(workers := s.workers[0 := w], io := io)
  {
    t := By(store, s, WorkerStep(0, NOTHING));
  }

  /** Its worker is inside the mutex, in the first recv. */
  lemma OneReceiver(store: Store) returns (s: State)
    ensures Reach(store, s)
    ensures s.life.main == LoopHead && s.life.list == [0] && s.workers.Keys == {0}
    ensures s.workers[0].pc == Receiving && s.io.mutex == HeldBy(Client(0)) && s.io.sections != []
    ensures s.shut == Initial(store).shut && s.silent == {}
  {
    s := OneClient(store);
    var w := NEW_WORKER.(pc := LockingReceive, status := Running);
    s := WorkerTo(store, s, w, s.io);
    s := WorkerTo(store, s, w.(pc := Receiving, section := |s.io.sections|),
                  s.io.(mutex := HeldBy(Client(0)), sections := s.io.sections + [Section(Client(0), "")]));
  }

  // ----- A server held up by one silent client -----

  lemma StallAndStop(store: Store) returns (s: State)
    ensures Reach(store, s) && s.shut.terminated && s.life.main == Joining([0])
    ensures s.workers.Keys == {0} && AwaitsClient(s, 0) && s.io.mutex == HeldBy(Client(0)) && Asleep(s)
  {
    s := OneReceiver(store);
    s := By(store, s, ClientStalls(0));
    s := By(store, s, SignalSet);
    s := By(store, s, DO_ACCEPT);
  }

  lemma StuckOnOne(s: State)
    requires s.life.main == Joining([0]) && s.workers.Keys == {0} && s.io.mutex == HeldBy(Client(0))
    requires AwaitsClient(s, 0) && Asleep(s)
    ensures StuckBehindClient(s) && Lacks(s, 0)
  {
  }

  lemma StuckStays(s: State, id: Id)
    requires Inv(s) && s.life.main != Done && StuckBehindClient(s) && Lacks(s, id)
    ensures AllBlocked(s) && !CanFinish(s)
  {
    AllBlockedIff(s);
    CanFinishIff(s);
  }

  /** A client connects, sends nothing and stays silent; the server is told to
      stop, no thread of it can take another step, and while the client stays
      silent none ever will. */
  lemma HeldUpServer(store: Store) returns (s: State)
    ensures Reach(store, s) && s.life.main != Done && s.shut.terminated
    ensures AllBlocked(s) && !CanFinish(s)
  {
    s := StallAndStop(store);
    ReachKeeps(store, s);
    StuckOnOne(s);
    StuckStays(s, 0);
  }

  // ----- A logger left asleep, on each path that sets the flag without a post -----

  /** The step sets the flag and leaves the logger waiting with nothing posted. */
  predicate LeavesAsleep(s: State, a: Action) {
    var t := Next(s, a);
    !s.shut.terminated && t.shut.terminated && t.shut.posted == 0 && Asleep(t)
  }

  lemma AsleepAfterAccept(store: Store) returns (s: State)
    ensures Reach(store, s) && s.life.main == Accepting
    ensures LeavesAsleep(s, MainStep(AcceptFailed, false))
  {
    ReachInitial(store);
    s := By(store, Initial(store), DO_ACCEPT);
  }

  lemma AsleepAfterCreate(store: Store) returns (s: State)
    ensures Reach(store, s) && s.life.main.Spawning?
    ensures LeavesAsleep(s, MainStep(Connected, false))
  {
    ReachInitial(store);
    s := By(store, Initial(store), DO_ACCEPT);
    s := By(store, s, DO_ACCEPT);
  }

  /** The one client's transfer has failed. */
  lemma FailedClient(store: Store) returns (s: State)
    ensures Reach(store, s) && s.life.main == LoopHead && s.life.list == [0] && !s.shut.terminated
    ensures 0 in s.workers && s.workers[0].pc == Exited && s.workers[0].status == Failed
    ensures s.shut == Initial(store).shut
  {
    s := OneReceiver(store);
    var w := s.workers[0].(pc := Received(false), got := s.workers[0].got + "");
    s := WorkerTo(store, s, w, s.io.(store := Append(s.io.store, ""), sections := AddToLast(s.io.sections, "")));
    s := WorkerTo(store, s, w.(pc := Closing(false)), s.io.(mutex := Free));
    s := WorkerTo(store, s, w.(pc := Exiting, status := Failed), s.io);
    s := WorkerTo(store, s, w.(pc := Exited, status := Failed), s.io);
  }

  const TIMEOUT := MainStep(TimedOut, false)

  lemma MainTo(store: Store, s: State, main: MainPc) returns (t: State)
    requires Reach(store, s) && StepMain(s, TimedOut, false) == Some(s.(life := s.life.(main := main)))
    ensures Reach(store, t) && t == s.(life := s.life.(main := main))
  {
    t := By(store, s, TIMEOUT);
  }

  lemma AsleepAfterSweep(store: Store) returns (s: State)
    ensures Reach(store, s) && s.life.main == Sweeping([], true)
    ensures LeavesAsleep(s, TIMEOUT)
  {
    s := FailedClient(store);
    s := MainTo(store, s, Accepting);
    s := MainTo(store, s, Sweeping([0], false));
    s := MainTo(store, s, SweepJoining([0], true));
    s := By(store, s, TIMEOUT);
    assert s.life.main == SweepFreeing([0], true);
    s := By(store, s, TIMEOUT);
  }
}
